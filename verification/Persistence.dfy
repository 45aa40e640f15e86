/**
  Trade persistence: consume from the log, save idempotently, then commit the offset, with failures
  and crashes between any two of these actions.
 */
module Persistence {
  import opened Types
  import opened Codec
  import opened ByteIO
  import opened EngineRuns
  import opened Exchange

  /** Rows are unique by symbol and trade id. */
  predicate SameKey(a: Trade, b: Trade) {
    a.symbol == b.symbol && a.id == b.id
  }

  predicate HasKey(rows: seq<Trade>, t: Trade) {
    exists r <- rows :: SameKey(r, t)
  }

  /** INSERT ... ON CONFLICT DO NOTHING. */
  function InsertIfAbsent(rows: seq<Trade>, t: Trade): seq<Trade> {
    if HasKey(rows, t) then rows else rows + [t]
  }

  function DecodeTrade(payload: Bytes): Option<Trade> {
    var (t, rest) :- GetTrade(payload);
    Some(t)
  }

  // ---------- The system as a state machine ----------

  /** Where the consumer is within one poll. */
  datatype Phase = Idle | Consumed(payload: Bytes) | Saved

  /**
    `committed` is the offset the broker remembers; `position` is the consumer's own, lost in a crash.
   */
  datatype System = System(log: seq<Bytes>, committed: nat, position: nat, phase: Phase, rows: seq<Trade>)

  datatype Action =
    | Produce(payload: Bytes)
    | Consume
    | SaveSucceeds
    /** The transaction was not applied; the exception ends the process. */
    | SaveFails
    /** The transaction was applied but its acknowledgement was lost; the exception ends the process. */
    | SaveAppliedThenFails
    | CommitSucceeds
    | CommitFails
    | Crash

  /** A restarted consumer resumes from the committed offset. */
  function Restart(s: System): System {
    s.(position := s.committed, phase := Idle)
  }

  function SaveRow(s: System): System {
    if !s.phase.Consumed? then s
    else
      var t := DecodeTrade(s.phase.payload);
      if t.None? then Restart(s) else s.(rows := InsertIfAbsent(s.rows, t.value), phase := Saved)
  }

  /** Actions that are not possible in a state leave it alone. */
  function Next(s: System, a: Action): System {
    match a
    case Produce(payload) => s.(log := s.log + [payload])
    case Consume =>
      if s.phase.Idle? && s.position < |s.log|
      then s.(phase := Consumed(s.log[s.position]), position := s.position + 1) else s
    case SaveSucceeds => SaveRow(s)
    case SaveFails => if s.phase.Consumed? then Restart(s) else s
    case SaveAppliedThenFails => if s.phase.Consumed? then Restart(SaveRow(s)) else s
    case CommitSucceeds => if s.phase.Saved? then s.(committed := s.position, phase := Idle) else s
    case CommitFails => if s.phase.Saved? then s.(phase := Idle) else s
    case Crash => Restart(s)
  }

  function Play(s: System, actions: seq<Action>): System
    decreases |actions|
  {
    if actions == [] then s else Play(Next(s, actions[0]), actions[1..])
  }

  const INITIAL: System := System([], 0, 0, Idle, [])

  // ---------- The table the log stands for ----------

  ghost predicate Readable(log: seq<Bytes>) {
    forall i | 0 <= i < |log| :: DecodeTrade(log[i]).Some?
  }

  ghost function Decoded(log: seq<Bytes>): seq<Trade>
    requires Readable(log)
  {
    seq(|log|, i requires 0 <= i < |log| => DecodeTrade(log[i]).value)
  }

  /** Trades without repeated keys, in their order: the first trade with each key. */
  function Dedup(ts: seq<Trade>): seq<Trade> {
    if ts == [] then [] else InsertIfAbsent(Dedup(ts[..|ts| - 1]), ts[|ts| - 1])
  }

  lemma HasKeyGrows(rows: seq<Trade>, t: Trade, u: Trade)
    ensures HasKey(rows, u) ==> HasKey(InsertIfAbsent(rows, t), u)
    ensures HasKey(InsertIfAbsent(rows, t), t)
  {
    var more := InsertIfAbsent(rows, t);
    if HasKey(rows, u) {
      var r :| r in rows && SameKey(r, u);
      assert r in more;
    }
    if !HasKey(rows, t) {
      assert more[|rows|] == t && t in more;
    }
  }

  /** Every key is kept. */
  lemma {:induction false} DedupKeepsKeys(ts: seq<Trade>, i: nat)
    requires i < |ts|
    ensures HasKey(Dedup(ts), ts[i])
    decreases |ts|
  {
    var front, last := ts[..|ts| - 1], ts[|ts| - 1];
    if i < |front| {
      DedupKeepsKeys(front, i);
    }
    HasKeyGrows(Dedup(front), last, ts[i]);
  }

  ghost predicate UniqueKeys(ts: seq<Trade>) {
    forall i, j | 0 <= i < j < |ts| :: ts[i].symbol != ts[j].symbol || ts[i].id != ts[j].id
  }

  /** No key is kept twice. */
  lemma {:induction false} DedupUnique(ts: seq<Trade>)
    ensures UniqueKeys(Dedup(ts))
    decreases |ts|
  {
    if ts != [] {
      var front, last := ts[..|ts| - 1], ts[|ts| - 1];
      DedupUnique(front);
      var kept, rows := Dedup(front), Dedup(ts);
      forall a, b | 0 <= a < b < |rows| ensures rows[a].symbol != rows[b].symbol || rows[a].id != rows[b].id {
        assert rows[a] == kept[a] && kept[a] in kept;
        if b < |kept| {
          assert rows[b] == kept[b];
          assert kept[a].symbol != kept[b].symbol || kept[a].id != kept[b].id;
        } else {
          assert b == |kept| && rows[b] == last;
          assert !HasKey(kept, last);
          assert !SameKey(kept[a], last);
        }
      }
    }
  }

  ghost predicate FirstWithKey(ts: seq<Trade>, i: nat)
    requires i < |ts|
  {
    forall j | 0 <= j < i :: ts[j].symbol != ts[i].symbol || ts[j].id != ts[i].id
  }

  /** `places` are the places of first occurrence, in order, and `rows` the trades there. */
  ghost predicate FirstOccurrences(ts: seq<Trade>, rows: seq<Trade>, places: seq<nat>) {
    && |places| == |rows|
    && (forall k | 0 <= k < |places| :: places[k] < |ts| && FirstWithKey(ts, places[k]) && rows[k] == ts[places[k]])
    && (forall a, b | 0 <= a < b < |places| :: places[a] < places[b])
    && (forall i | 0 <= i < |ts| && FirstWithKey(ts, i) :: i in places)
  }

  /** One more trade adds its place exactly when its key is new. */
  lemma FirstOccurrencesGrow(ts: seq<Trade>, rows: seq<Trade>, places: seq<nat>)
    requires ts != [] && FirstOccurrences(ts[..|ts| - 1], rows, places)
    ensures var n := |ts| - 1;
            if FirstWithKey(ts, n) then FirstOccurrences(ts, rows + [ts[n]], places + [n])
            else FirstOccurrences(ts, rows, places)
  {
    hide SameKey;
    var n := |ts| - 1;
    var front := ts[..n];
    forall i | 0 <= i < n ensures FirstWithKey(front, i) <==> FirstWithKey(ts, i) {
      assert forall j | 0 <= j <= i :: front[j] == ts[j];
    }
    if FirstWithKey(ts, n) {
      var more := places + [n];
      forall i | 0 <= i < |ts| && FirstWithKey(ts, i) ensures i in more {
        assert more[|places|] == n;
      }
    }
  }

  /** De-duplication keeps exactly the places where a key first occurs, in order. */
  lemma {:induction false} DedupIsFirstOccurrences(ts: seq<Trade>) returns (places: seq<nat>)
    ensures FirstOccurrences(ts, Dedup(ts), places)
    decreases |ts|
  {
    hide FirstWithKey, HasKey;
    if ts == [] {
      places := [];
    } else {
      hide FirstOccurrences;
      var n := |ts| - 1;
      places := DedupIsFirstOccurrences(ts[..n]);
      LastIsFirstIff(ts);
      FirstOccurrencesGrow(ts, Dedup(ts[..n]), places);
      if FirstWithKey(ts, n) {
        places := places + [n];
      }
    }
  }

  lemma LastIsFirstIff(ts: seq<Trade>)
    requires ts != []
    ensures var n := |ts| - 1;
            FirstWithKey(ts, n) <==> !HasKey(Dedup(ts[..n]), ts[n])
  {
    var n := |ts| - 1;
    var front := ts[..n];
    if HasKey(Dedup(front), ts[n]) {
      var r :| r in Dedup(front) && SameKey(r, ts[n]);
      DedupFrom(front);
      assert r in front;
      var j :| 0 <= j < n && front[j] == r;
      assert SameKey(ts[j], ts[n]);
    } else {
      forall j | 0 <= j < n ensures !SameKey(ts[j], ts[n]) {
        DedupKeepsKeys(front, j);
        var r :| r in Dedup(front) && SameKey(r, front[j]);
      }
    }
  }

  /** Nothing is invented. */
  lemma {:induction false} DedupFrom(ts: seq<Trade>)
    ensures forall r <- Dedup(ts) :: r in ts
    decreases |ts|
  {
    if ts != [] {
      DedupFrom(ts[..|ts| - 1]);
    }
  }

  /** The table that the first n log entries stand for. */
  ghost function TableOf(log: seq<Bytes>): seq<Trade>
    requires Readable(log)
  {
    Dedup(Decoded(log))
  }

  // ---------- The invariant ----------

  /** `n` entries have been saved so far: the table is theirs, and nothing beyond them is committed. */
  ghost predicate SavedUpTo(s: System, n: nat) {
    && s.committed <= s.position
    && s.committed <= n <= |s.log|
    && Readable(s.log[..n])
    && s.rows == TableOf(s.log[..n])
    && match s.phase
       case Idle => s.position <= n
       case Saved => s.position <= n
       case Consumed(payload) => 0 < s.position <= n + 1 && s.position <= |s.log| && payload == s.log[s.position - 1]
                                 && s.committed < s.position
  }

  /** Saving an entry again changes nothing. */
  lemma SaveAgain(log: seq<Bytes>, n: nat, i: nat)
    requires i < n <= |log| && Readable(log[..n])
    ensures DecodeTrade(log[i]).Some?
    ensures InsertIfAbsent(TableOf(log[..n]), DecodeTrade(log[i]).value) == TableOf(log[..n])
  {
    assert log[..n][i] == log[i];
    DedupKeepsKeys(Decoded(log[..n]), i);
  }

  /** Saving the next entry gives the table of one entry more. */
  lemma SaveNext(log: seq<Bytes>, n: nat)
    requires n < |log| && Readable(log[..n]) && DecodeTrade(log[n]).Some?
    ensures Readable(log[..n + 1])
    ensures InsertIfAbsent(TableOf(log[..n]), DecodeTrade(log[n]).value) == TableOf(log[..n + 1])
  {
    assert forall i | 0 <= i < n :: log[..n][i] == log[i];
    var ts := Decoded(log[..n + 1]);
    assert ts[..n] == Decoded(log[..n]);
  }

  lemma {:induction false} SaveKeeps(s: System, n: nat) returns (n': nat)
    requires SavedUpTo(s, n) && s.phase.Consumed?
    ensures SavedUpTo(SaveRow(s), n')
    ensures SavedUpTo(Restart(SaveRow(s)), n')
  {
    hide TableOf, Readable, DecodeTrade, InsertIfAbsent;
    n' := n;
    if DecodeTrade(s.phase.payload).Some? {
      if s.position - 1 < n {
        SaveAgain(s.log, n, s.position - 1);
      } else {
        SaveNext(s.log, n);
        n' := n + 1;
      }
    }
  }

  lemma RestartKeeps(s: System, n: nat)
    requires SavedUpTo(s, n)
    ensures SavedUpTo(Restart(s), n)
  {
    hide TableOf, Readable;
  }

  lemma {:induction false} ProduceKeeps(s: System, payload: Bytes, n: nat)
    requires SavedUpTo(s, n)
    ensures SavedUpTo(s.(log := s.log + [payload]), n)
  {
    hide TableOf, Readable;
    assert (s.log + [payload])[..n] == s.log[..n];
  }

  lemma {:induction false} NextKeeps(s: System, a: Action, n: nat) returns (n': nat)
    requires SavedUpTo(s, n)
    ensures SavedUpTo(Next(s, a), n')
  {
    hide TableOf, Readable, DecodeTrade, InsertIfAbsent;
    n' := n;
    RestartKeeps(s, n);
    match a
    case Produce(payload) => ProduceKeeps(s, payload, n);
    case SaveSucceeds =>
      if s.phase.Consumed? { n' := SaveKeeps(s, n); }
    case SaveAppliedThenFails =>
      if s.phase.Consumed? { n' := SaveKeeps(s, n); }
    case _ =>
  }

  lemma {:induction false} PlayKeeps(s: System, actions: seq<Action>, n: nat) returns (n': nat)
    requires SavedUpTo(s, n)
    ensures SavedUpTo(Play(s, actions), n')
    decreases |actions|
  {
    if actions == [] {
      n' := n;
    } else {
      var m := NextKeeps(s, actions[0], n);
      n' := PlayKeeps(Next(s, actions[0]), actions[1..], m);
    }
  }

  /** Nothing is committed but an entry whose save has succeeded, in the same poll. */
  lemma CommitsOnlyAfterSave(s: System, a: Action)
    ensures var s' := Next(s, a);
            s'.committed != s.committed ==> a == CommitSucceeds && s.phase == Saved && s'.committed == s.position
    ensures Next(s, a).phase == Saved && s.phase != Saved ==>
              && s.phase.Consumed? && DecodeTrade(s.phase.payload).Some?
              && exists r <- Next(s, a).rows ::
                   && r.symbol == DecodeTrade(s.phase.payload).value.symbol
                   && r.id == DecodeTrade(s.phase.payload).value.id
  {
    hide DecodeTrade;
    if s.phase.Consumed? && DecodeTrade(s.phase.payload).Some? {
      HasKeyGrows(s.rows, DecodeTrade(s.phase.payload).value, DecodeTrade(s.phase.payload).value);
    }
  }

  /**
    Under any interleaving of producing, polling, failing and crashing, the table is the
    de-duplicated prefix of the log, at least as long as the committed offset.
   */
  lemma EveryInterleaving(actions: seq<Action>) returns (n: nat)
    ensures var s := Play(INITIAL, actions);
            && s.committed <= n <= |s.log|
            && Readable(s.log[..n])
            && s.rows == TableOf(s.log[..n])
  {
    n := PlayKeeps(INITIAL, actions, 0);
  }

  /** No committed trade is missing and none is stored twice. */
  lemma NothingLostNothingTwice(actions: seq<Action>)
    ensures var s := Play(INITIAL, actions);
            && s.committed <= |s.log|
            && (forall i | 0 <= i < s.committed ::
                  && DecodeTrade(s.log[i]).Some?
                  && var t := DecodeTrade(s.log[i]).value;
                     exists r <- s.rows :: r.symbol == t.symbol && r.id == t.id)
            && (forall a, b | 0 <= a < b < |s.rows| ::
                  s.rows[a].symbol != s.rows[b].symbol || s.rows[a].id != s.rows[b].id)
  {
    hide Play, DecodeTrade;
    var n := EveryInterleaving(actions);
    var s := Play(INITIAL, actions);
    var ts := Decoded(s.log[..n]);
    DedupUnique(ts);
    assert s.rows == Dedup(ts);
    forall i | 0 <= i < s.committed
      ensures DecodeTrade(s.log[i]).Some?
      ensures var t := DecodeTrade(s.log[i]).value;
              exists r <- s.rows :: r.symbol == t.symbol && r.id == t.id
    {
      assert s.log[..n][i] == s.log[i];
      DedupKeepsKeys(Decoded(s.log[..n]), i);
    }
  }

  /** Entries with equal keys carry equal trades, as they do within one engine lifetime. */
  ghost predicate Consistent(log: seq<Bytes>) {
    forall i, j | 0 <= i < |log| && 0 <= j < |log| && DecodeTrade(log[i]).Some? && DecodeTrade(log[j]).Some?
                  && SameKey(DecodeTrade(log[i]).value, DecodeTrade(log[j]).value) ::
      DecodeTrade(log[i]) == DecodeTrade(log[j])
  }

  /** On a consistent log the very trades are stored, not merely their keys. */
  lemma CommittedTradesAreStored(actions: seq<Action>)
    requires Consistent(Play(INITIAL, actions).log)
    ensures var s := Play(INITIAL, actions);
            && s.committed <= |s.log|
            && forall i | 0 <= i < s.committed ::
                 DecodeTrade(s.log[i]).Some? && DecodeTrade(s.log[i]).value in s.rows
  {
    hide Play, DecodeTrade, SameKey;
    var n := EveryInterleaving(actions);
    var s := Play(INITIAL, actions);
    var ts := Decoded(s.log[..n]);
    forall i | 0 <= i < s.committed
      ensures DecodeTrade(s.log[i]).Some? && DecodeTrade(s.log[i]).value in s.rows
    {
      assert s.log[..n][i] == s.log[i];
      DedupKeepsKeys(ts, i);
      DedupFrom(ts);
      var r :| r in s.rows && SameKey(r, ts[i]);
      var j :| 0 <= j < |ts| && ts[j] == r;
      assert s.log[..n][j] == s.log[j];
    }
  }

  // ---------- The log of one engine lifetime ----------

  ghost function Encodings(ts: seq<Trade>): seq<Bytes> {
    seq(|ts|, i requires 0 <= i < |ts| => PutTrade(ts[i], []))
  }

  lemma EncodingsDecode(ts: seq<Trade>)
    requires forall t <- ts :: TradeFits(t)
    ensures Readable(Encodings(ts)) && Decoded(Encodings(ts)) == ts
  {
    hide PutTrade, GetTrade;
    forall i | 0 <= i < |ts| ensures DecodeTrade(Encodings(ts)[i]) == Some(ts[i]) {
      assert ts[i] in ts;
      ReadTrade(ts[i], []);
    }
  }

  /** Where no key repeats there is nothing to drop. */
  lemma {:induction false} DedupKeepsAll(ts: seq<Trade>)
    requires UniqueKeys(ts)
    ensures Dedup(ts) == ts
    decreases |ts|
  {
    if ts != [] {
      var front := ts[..|ts| - 1];
      DedupKeepsAll(front);
    }
  }

  /** What a service publishes in one lifetime carries no key twice. */
  lemma PublishedKeysUnique(events: seq<Event>)
    requires AllFresh(Service(map[], [], []), events)
    ensures UniqueKeys(ServeAll(Service(map[], [], []), events).published)
  {
    hide ServeAll, AllFresh, ExchangeOk, NumberedFrom, StreamOf;
    EveryServiceRun(events);
    var published := ServeAll(Service(map[], [], []), events).published;
    forall i, j | 0 <= i < j < |published|
      ensures published[i].symbol != published[j].symbol || published[i].id != published[j].id
    {
      if published[i].symbol == published[j].symbol {
        NumberingIsKey(published, i, j);
      }
    }
  }

  lemma UniqueIsConsistent(ts: seq<Trade>)
    requires UniqueKeys(ts) && forall t <- ts :: TradeFits(t)
    ensures Consistent(Encodings(ts))
  {
    hide DecodeTrade, PutTrade, TradeFits;
    EncodingsDecode(ts);
    var log := Encodings(ts);
    forall i, j | 0 <= i < |log| && 0 <= j < |log| && DecodeTrade(log[i]).Some? && DecodeTrade(log[j]).Some?
                  && SameKey(DecodeTrade(log[i]).value, DecodeTrade(log[j]).value)
      ensures DecodeTrade(log[i]) == DecodeTrade(log[j])
    {
      assert Decoded(log)[i] == ts[i] && Decoded(log)[j] == ts[j];
    }
  }

  /**
    From the engines to the table: while the log holds the first trades that one lifetime of the
    service published, the table holds exactly a prefix of the published trades, with every committed
    one in it.
   */
  lemma PublishedPrefixIsStored(events: seq<Event>, actions: seq<Action>) returns (n: nat)
    requires AllFresh(Service(map[], [], []), events)
    requires forall t <- ServeAll(Service(map[], [], []), events).published :: TradeFits(t)
    requires Play(INITIAL, actions).log <= Encodings(ServeAll(Service(map[], [], []), events).published)
    ensures var s := Play(INITIAL, actions);
            var published := ServeAll(Service(map[], [], []), events).published;
            && Consistent(s.log)
            && s.committed <= n <= |s.log| <= |published|
            && s.rows == published[..n]
  {
    hide ServeAll, AllFresh, Play, Dedup, SameKey, PutTrade, TradeFits, DecodeTrade;
    var published := ServeAll(Service(map[], [], []), events).published;
    var s := Play(INITIAL, actions);
    n := EveryInterleaving(actions);
    PublishedKeysUnique(events);
    var m := |s.log|;
    assert s.log == Encodings(published[..m]);
    assert s.log[..n] == Encodings(published[..n]);
    assert forall k: nat | k <= |published| :: forall t <- published[..k] :: t in published;
    UniqueIsConsistent(published[..m]);
    EncodingsDecode(published[..n]);
    DedupKeepsAll(published[..n]);
  }

  // ---------- The objects ----------

  datatype SaveResult = Applied | NotApplied | AppliedButLost

  class PostgresTradeRepository {
    var rows: seq<Trade>

    constructor ()
      ensures rows == []
    {
      rows := [];
    }

    /** One transaction; false where the C++ throws. */
    method Save(t: Trade, outcome: SaveResult) returns (returned: bool)
      modifies this
      ensures rows == if outcome == NotApplied then old(rows) else InsertIfAbsent(old(rows), t)
      ensures returned <==> outcome == Applied
    {
      if outcome == NotApplied {
        return false;
      }
      if !exists r <- rows :: SameKey(r, t) {
        rows := rows + [t];
      }
      return outcome == Applied;
    }
  }

  class KafkaTradeConsumer {
    var log: seq<Bytes>
    var committed: nat
    var position: nat

    constructor (log: seq<Bytes>)
      ensures this.log == log && committed == 0 && position == 0
    {
      this.log, committed, position := log, 0, 0;
    }

    ghost function View(repository: PostgresTradeRepository): System
      reads this, repository
    {
      System(log, committed, position, Idle, repository.rows)
    }

    /**
      One poll. `delivers` says whether a message arrives before the timeout, `saves` and `commits`
      how the two remote calls end. False where the C++ throws, which ends the process.
     */
    method PollOnce(repository: PostgresTradeRepository, delivers: bool, saves: SaveResult, commits: bool)
      returns (returned: bool)
      requires position <= |log|
      modifies this`committed, this`position, repository
      ensures position <= |log|
      ensures returned ==>
                View(repository) == Play(old(View(repository)), PollActions(delivers, saves, commits))
      ensures !returned ==>
                Restart(View(repository)) == Play(old(View(repository)), PollActions(delivers, saves, commits))
    {
      hide Play, PollActions, DecodeTrade, InsertIfAbsent, SameKey;
      PollOutcome(View(repository), delivers, saves, commits);
      if !delivers || position == |log| {
        return true;
      }
      var payload := log[position];
      position := position + 1;
      var reader := new ByteReader(payload);
      var trade := ReadTradeFrom(reader);
      DecodeIsRead(payload);
      if trade.None? {
        return false;
      }
      var saved := repository.Save(trade.value, saves);
      if !saved {
        return false;
      }
      if commits {
        committed := position;
      }
      return true;
    }

    /** A new process of the same consumer group. */
    method Resume(repository: PostgresTradeRepository)
      modifies this`position
      ensures View(repository) == Restart(old(View(repository)))
    {
      position := committed;
    }
  }

  function SaveAction(saves: SaveResult): Action {
    match saves
    case Applied => SaveSucceeds
    case NotApplied => SaveFails
    case AppliedButLost => SaveAppliedThenFails
  }

  /** The actions of one poll, in order. */
  function PollActions(delivers: bool, saves: SaveResult, commits: bool): seq<Action> {
    if !delivers then [] else [Consume, SaveAction(saves), if commits then CommitSucceeds else CommitFails]
  }

  lemma DecodeIsRead(payload: Bytes)
    ensures DecodeTrade(payload) == if GetTrade(payload).None? then None else Some(GetTrade(payload).value.0)
  {
  }

  /** How one poll ends, by what arrives and how the two remote calls go. */
  lemma PollOutcome(s: System, delivers: bool, saves: SaveResult, commits: bool)
    requires s.phase == Idle && s.position <= |s.log|
    ensures var end := Play(s, PollActions(delivers, saves, commits));
            if !delivers || s.position == |s.log| then end == s
            else
              var t := DecodeTrade(s.log[s.position]);
              if t.None? || saves == NotApplied then end == Restart(s)
              else
                var saved := s.(rows := InsertIfAbsent(s.rows, t.value));
                if saves == AppliedButLost then end == Restart(saved)
                else
                  var next := s.position + 1;
                  end == saved.(position := next, committed := if commits then next else s.committed)
  {
    hide Play, DecodeTrade, InsertIfAbsent, SaveAction, Next;
    if !delivers {
      PlayNothing(s);
    } else {
      var commit := if commits then CommitSucceeds else CommitFails;
      PlayThree(s, Consume, SaveAction(saves), commit);
      if s.position < |s.log| {
        var consumed := s.(phase := Consumed(s.log[s.position]), position := s.position + 1);
        Consumes(s);
        SaveOutcome(consumed, s.log[s.position], saves);
        CommitOutcome(Next(consumed, SaveAction(saves)), commits);
      } else {
        Consumes(s);
        SaveNothing(s, saves);
        CommitOutcome(s, commits);
      }
    }
  }

  lemma Consumes(s: System)
    requires s.phase == Idle
    ensures Next(s, Consume)
         == if s.position < |s.log| then s.(phase := Consumed(s.log[s.position]), position := s.position + 1) else s
  {
  }

  lemma CommitOutcome(s: System, commits: bool)
    requires !s.phase.Consumed?
    ensures Next(s, if commits then CommitSucceeds else CommitFails)
         == if s.phase.Saved? && commits then s.(committed := s.position, phase := Idle) else s.(phase := Idle)
  {
  }

  /** How the save step of a poll ends. */
  lemma SaveOutcome(s: System, payload: Bytes, saves: SaveResult)
    requires s.phase == Consumed(payload)
    ensures var t := DecodeTrade(payload);
            Next(s, SaveAction(saves))
            == if t.None? || saves == NotApplied then Restart(s)
               else
                 var saved := s.(rows := InsertIfAbsent(s.rows, t.value));
                 if saves == AppliedButLost then Restart(saved) else saved.(phase := Saved)
  {
    hide DecodeTrade, InsertIfAbsent;
  }

  lemma SaveNothing(s: System, saves: SaveResult)
    requires s.phase == Idle
    ensures Next(s, SaveAction(saves)) == s
  {
  }

  lemma PlayNothing(s: System)
    ensures Play(s, []) == s
  {
  }

  lemma PlayThree(s: System, a: Action, b: Action, c: Action)
    ensures Play(s, [a, b, c]) == Next(Next(Next(s, a), b), c)
  {
    hide Next;
    var s1 := Next(s, a);
    var s2 := Next(s1, b);
    assert [a, b, c][1..] == [b, c] && [b, c][1..] == [c] && [c][1..] == [];
    calc {
      Play(s, [a, b, c]);
      Play(s1, [b, c]);
      Play(s2, [c]);
      Play(Next(s2, c), []);
      Next(s2, c);
    }
  }
}
