/** Revisioned quorum writes over replicas that behave as monotone registers. */
module Replication {
  import opened Prelude

  datatype Record = Record(revision: int, deleted: bool, payload: string)

  /** One replica's table: at most one record per key. */
  type Register = map<string, Record>

  /** How one put attempt ends: acknowledged, failed without effect, or failed
      after the replica had already taken the record. */
  datatype Attempt = Acknowledged | Lost | AppliedThenLost

  datatype Error = StaleRevision | QuorumUnavailable

  // --------------------------------------------------------------- registers

  /** A put only replaces a record of a smaller revision. */
  function Put(reg: Register, key: string, r: Record): Register {
    if key in reg && r.revision <= reg[key].revision then reg else reg[key := r]
  }

  /** A replica after a series of attempts, and whether one was acknowledged. */
  function Attempts(reg: Register, key: string, r: Record, attempts: seq<Attempt>): (Register, bool)
    decreases |attempts|
  {
    if attempts == [] then (reg, false)
    else
      match attempts[0]
      case Acknowledged => (Put(reg, key, r), true)
      case Lost => Attempts(reg, key, r, attempts[1..])
      case AppliedThenLost => Attempts(Put(reg, key, r), key, r, attempts[1..])
  }

  /** Records are never lost, revisions never fall, and a record at a revision never changes. */
  ghost predicate RegisterAdvances(before: Register, after: Register) {
    forall key :: key in before ==>
      key in after && (after[key] == before[key] || before[key].revision < after[key].revision)
  }

  ghost predicate Advances(before: seq<Register>, after: seq<Register>) {
    |before| == |after| && forall i :: 0 <= i < |before| ==> RegisterAdvances(before[i], after[i])
  }

  lemma AdvancesTransitive(a: seq<Register>, b: seq<Register>, c: seq<Register>)
    requires Advances(a, b) && Advances(b, c)
    ensures Advances(a, c)
  {
    forall i | 0 <= i < |a|
      ensures RegisterAdvances(a[i], c[i])
    {
      assert RegisterAdvances(a[i], b[i]) && RegisterAdvances(b[i], c[i]);
    }
  }

  lemma {:induction false} AttemptsAdvance(reg: Register, key: string, r: Record, attempts: seq<Attempt>)
    ensures var (after, ok) := Attempts(reg, key, r, attempts);
            && RegisterAdvances(reg, after)
            && (ok ==> key in after && r.revision <= after[key].revision)
            && (forall k :: k in after ==> (k in reg && after[k] == reg[k]) || (k == key && after[k] == r))
    decreases |attempts|
  {
    if attempts != [] {
      AttemptsAdvance(reg, key, r, attempts[1..]);
      AttemptsAdvance(Put(reg, key, r), key, r, attempts[1..]);
    }
  }

  // ------------------------------------------------------------------ writes

  /** The revision a write uses: zero counts as not given. */
  function ChosenRevision(current: int, revision: Option<int>): int {
    if revision.Some? && revision.value != 0 then revision.value else current + 1
  }

  /** All replicas after a write round; attempts[i] is what replica i answered. */
  function Round(regs: seq<Register>, key: string, r: Record, attempts: seq<seq<Attempt>>): seq<Register>
    requires |attempts| == |regs|
  {
    seq(|regs|, i requires 0 <= i < |regs| => Attempts(regs[i], key, r, attempts[i]).0)
  }

  /** The replicas that acknowledged. */
  function Acks(regs: seq<Register>, key: string, r: Record, attempts: seq<seq<Attempt>>): set<int>
    requires |attempts| == |regs|
  {
    set i | 0 <= i < |regs| && Attempts(regs[i], key, r, attempts[i]).1
  }

  lemma RoundAdvances(regs: seq<Register>, key: string, r: Record, attempts: seq<seq<Attempt>>)
    requires |attempts| == |regs|
    ensures Advances(regs, Round(regs, key, r, attempts))
  {
    forall i | 0 <= i < |regs|
      ensures RegisterAdvances(regs[i], Round(regs, key, r, attempts)[i])
    {
      AttemptsAdvance(regs[i], key, r, attempts[i]);
    }
  }

  lemma AckHolds(regs: seq<Register>, key: string, r: Record, attempts: seq<seq<Attempt>>, i: int)
    requires |attempts| == |regs| && i in Acks(regs, key, r, attempts)
    ensures 0 <= i < |regs| && HoldsAtLeast(Round(regs, key, r, attempts)[i], key, r.revision)
  {
    AttemptsAdvance(regs[i], key, r, attempts[i]);
  }

  /** Enough acknowledgements make the record replicated. */
  lemma AcksReplicate(regs: seq<Register>, key: string, r: Record, attempts: seq<seq<Attempt>>, quorum: nat)
    requires |attempts| == |regs| && |Acks(regs, key, r, attempts)| >= quorum
    ensures Replicated(Round(regs, key, r, attempts), key, r.revision, quorum)
  {
    var acks := Acks(regs, key, r, attempts);
    var after: seq<Register> := Round(regs, key, r, attempts);
    forall i | i in acks
      ensures 0 <= i < |after| && HoldsAtLeast(after[i], key, r.revision)
    {
      AckHolds(regs, key, r, attempts, i);
    }
    assert AllHold(after, acks, key, r.revision);
  }

  ghost predicate HoldsAtLeast(reg: Register, key: string, revision: int) {
    key in reg && revision <= reg[key].revision
  }

  /** At least `quorum` replicas hold the key at this revision or a later one. */
  ghost predicate Replicated(regs: seq<Register>, key: string, revision: int, quorum: nat) {
    exists s :: AllHold(regs, s, key, revision) && |s| >= quorum
  }

  ghost predicate AllHold(regs: seq<Register>, s: set<int>, key: string, revision: int) {
    forall i :: i in s ==> 0 <= i < |regs| && HoldsAtLeast(regs[i], key, revision)
  }

  /** Replication is never undone by anything the registers allow. */
  lemma ReplicatedStays(before: seq<Register>, after: seq<Register>, key: string, revision: int, quorum: nat)
    requires Advances(before, after) && Replicated(before, key, revision, quorum)
    ensures Replicated(after, key, revision, quorum)
  {
    var s :| AllHold(before, s, key, revision) && |s| >= quorum;
    forall i | i in s
      ensures HoldsAtLeast(after[i], key, revision)
    {
      assert HoldsAtLeast(before[i], key, revision);
      assert RegisterAdvances(before[i], after[i]);
    }
    assert AllHold(after, s, key, revision);
  }

  // ------------------------------------------------------------------- reads

  /** The record with the largest revision among the answers, the first of equals. */
  function Winner(regs: seq<Register>, key: string, answered: set<int>, n: nat): Option<Record>
    requires n <= |regs|
  {
    if n == 0 then None
    else
      var best := Winner(regs, key, answered, n - 1);
      if n - 1 in answered && key in regs[n - 1] && (best.None? || best.value.revision < regs[n - 1][key].revision)
      then Some(regs[n - 1][key]) else best
  }

  lemma {:induction false} WinnerIsLatest(regs: seq<Register>, key: string, answered: set<int>, n: nat)
    requires n <= |regs|
    ensures var w := Winner(regs, key, answered, n);
            && (forall i :: 0 <= i < n && i in answered && key in regs[i] ==> w.Some? && regs[i][key].revision <= w.value.revision)
            && (w.Some? ==> exists i :: 0 <= i < n && i in answered && key in regs[i] && regs[i][key] == w.value)
    decreases n
  {
    if n > 0 { WinnerIsLatest(regs, key, answered, n - 1); }
  }

  /** What the caller sees: tombstones read as absence. */
  function Visible(w: Option<Record>): Option<Record> {
    if w.Some? && w.value.deleted then None else w
  }

  /** Replica indices below n number at most n. */
  lemma RangeCount(s: set<int>, n: nat)
    requires forall i :: i in s ==> 0 <= i < n
    ensures |s| <= n
  {
    var all := seq(n, i => i);
    DistinctCount(all);
    forall i | i in s
      ensures i in Elems(all)
    {
      assert all[i] == i;
    }
    SubsetCount(s, Elems(all));
  }

  /** Two sets of replicas that together outnumber all of them share one. */
  lemma SetsMeet(s: set<int>, t: set<int>, n: nat) returns (i: int)
    requires (forall j :: j in s ==> 0 <= j < n) && (forall j :: j in t ==> 0 <= j < n)
    requires |s| + |t| > n
    ensures i in s && i in t
  {
    RangeCount(s + t, n);
    assert |s + t| == |s| + |t| - |s * t|;
    i :| i in s * t;
  }

  /** A read answered by more than n - quorum replicas sees a replicated revision or a later one. */
  lemma ReadSeesReplicated(regs: seq<Register>, key: string, revision: int, quorum: nat, answered: set<int>)
    requires Replicated(regs, key, revision, quorum)
    requires (forall i :: i in answered ==> 0 <= i < |regs|) && |answered| > |regs| - quorum
    ensures var w := Winner(regs, key, answered, |regs|);
            w.Some? && revision <= w.value.revision
  {
    var s :| AllHold(regs, s, key, revision) && |s| >= quorum;
    var i := SetsMeet(s, answered, |regs|);
    assert HoldsAtLeast(regs[i], key, revision);
    WinnerIsLatest(regs, key, answered, |regs|);
  }

  // ---------------------------------------------------------------- histories

  /** Any number of coordinators, each remembering the revisions it has seen. */
  datatype Cluster = Cluster(regs: seq<Register>, seen: map<(string, string), int>)

  datatype Op =
    | WriteOp(coordinator: string, key: string, payload: string, revision: Option<int>, deleted: bool, attempts: seq<seq<Attempt>>)
    | ReadOp(coordinator: string, key: string, answered: set<int>)

  function Seen(c: Cluster, coordinator: string, key: string): int {
    if (coordinator, key) in c.seen then c.seen[(coordinator, key)] else 0
  }

  function RecordOf(c: Cluster, op: Op): Record
    requires op.WriteOp?
  {
    Record(ChosenRevision(Seen(c, op.coordinator, op.key), op.revision), op.deleted, op.payload)
  }

  /** A write whose quorum fails still leaves its record where it got through. */
  function Apply(c: Cluster, quorum: nat, op: Op): (Cluster, Option<Error>)
    requires op.WriteOp? ==> |op.attempts| == |c.regs|
  {
    if op.WriteOp? then
      var r := RecordOf(c, op);
      if r.revision <= Seen(c, op.coordinator, op.key) then (c, Some(StaleRevision))
      else
        var regs := Round(c.regs, op.key, r, op.attempts);
        if |Acks(c.regs, op.key, r, op.attempts)| < quorum then (c.(regs := regs), Some(QuorumUnavailable))
        else (Cluster(regs, c.seen[(op.coordinator, op.key) := r.revision]), None)
    else
      var w := Winner(c.regs, op.key, op.answered, |c.regs|);
      if w.None? then (c, None)
      else
        var known := Seen(c, op.coordinator, op.key);
        (c.(seen := c.seen[(op.coordinator, op.key) := if known < w.value.revision then w.value.revision else known]), None)
  }

  ghost predicate WellShaped(c: Cluster, ops: seq<Op>) {
    forall i :: 0 <= i < |ops| && ops[i].WriteOp? ==> |ops[i].attempts| == |c.regs|
  }

  ghost function Run(c: Cluster, quorum: nat, ops: seq<Op>): (end: Cluster)
    requires WellShaped(c, ops)
    ensures |end.regs| == |c.regs|
    decreases |ops|
  {
    if ops == [] then c else
      var next := Apply(c, quorum, ops[0]).0;
      Run(next, quorum, ops[1..])
  }

  lemma ApplyAdvances(c: Cluster, quorum: nat, op: Op)
    requires op.WriteOp? ==> |op.attempts| == |c.regs|
    ensures Advances(c.regs, Apply(c, quorum, op).0.regs)
  {
    if op.WriteOp? { RoundAdvances(c.regs, op.key, RecordOf(c, op), op.attempts); }
  }

  lemma {:induction false} RunAdvances(c: Cluster, quorum: nat, ops: seq<Op>)
    requires WellShaped(c, ops)
    ensures Advances(c.regs, Run(c, quorum, ops).regs)
    decreases |ops|
  {
    if ops != [] {
      var next := Apply(c, quorum, ops[0]).0;
      ApplyAdvances(c, quorum, ops[0]);
      RunAdvances(next, quorum, ops[1..]);
      AdvancesTransitive(c.regs, next.regs, Run(next, quorum, ops[1..]).regs);
    }
  }

  lemma AcceptedIsReplicated(c: Cluster, quorum: nat, op: Op)
    requires op.WriteOp? && |op.attempts| == |c.regs| && Apply(c, quorum, op).1.None?
    ensures Replicated(Apply(c, quorum, op).0.regs, op.key, RecordOf(c, op).revision, quorum)
  {
    AcksReplicate(c.regs, op.key, RecordOf(c, op), op.attempts, quorum);
  }

  /** After an accepted write, whatever writes, failures and retries follow from
      any coordinator, a read answered by more than n - quorum replicas finds
      that revision or a later one: an older record never comes back. */
  lemma AcceptedWriteIsNeverLost(c: Cluster, quorum: nat, op: Op, later: seq<Op>, answered: set<int>)
    requires op.WriteOp? && |op.attempts| == |c.regs| && Apply(c, quorum, op).1.None?
    requires WellShaped(c, later)
    requires (forall i :: i in answered ==> 0 <= i < |c.regs|) && |answered| > |c.regs| - quorum
    ensures var end := Run(Apply(c, quorum, op).0, quorum, later);
            var w := Winner(end.regs, op.key, answered, |end.regs|);
            w.Some? && RecordOf(c, op).revision <= w.value.revision
  {
    var next := Apply(c, quorum, op).0;
    AcceptedIsReplicated(c, quorum, op);
    RunAdvances(next, quorum, later);
    ReplicatedStays(next.regs, Run(next, quorum, later).regs, op.key, RecordOf(c, op).revision, quorum);
    ReadSeesReplicated(Run(next, quorum, later).regs, op.key, RecordOf(c, op).revision, quorum, answered);
  }

  /** No replica holds another record at this revision. */
  ghost predicate Unrivalled(regs: seq<Register>, key: string, r: Record) {
    forall i :: 0 <= i < |regs| && key in regs[i] && regs[i][key].revision == r.revision ==> regs[i][key] == r
  }

  /** A write round neither adds nor removes rivals: they are exactly those there before. */
  lemma RivalsUnchanged(regs: seq<Register>, key: string, r: Record, attempts: seq<seq<Attempt>>)
    requires |attempts| == |regs|
    ensures Unrivalled(Round(regs, key, r, attempts), key, r) <==> Unrivalled(regs, key, r)
  {
    var after: seq<Register> := Round(regs, key, r, attempts);
    forall i | 0 <= i < |regs|
      ensures (key in after[i] && after[i][key].revision == r.revision && after[i][key] != r) <==>
              (key in regs[i] && regs[i][key].revision == r.revision && regs[i][key] != r)
    {
      AttemptsAdvance(regs[i], key, r, attempts[i]);
      if key in regs[i] && r.revision <= regs[i][key].revision { RivalStays(regs[i], key, r, attempts[i]); }
    }
  }

  lemma {:induction false} RivalStays(reg: Register, key: string, r: Record, attempts: seq<Attempt>)
    requires key in reg && r.revision <= reg[key].revision
    ensures Attempts(reg, key, r, attempts).0 == reg
    decreases |attempts|
  {
    if attempts != [] { RivalStays(reg, key, r, attempts[1..]); }
  }

  /** Every later write to the key comes from a coordinator that knows the revision. */
  ghost predicate Informed(c: Cluster, key: string, ops: seq<Op>, revision: int) {
    forall i :: 0 <= i < |ops| && ops[i].WriteOp? && ops[i].key == key ==> revision <= Seen(c, ops[i].coordinator, key)
  }

  lemma SeenGrows(c: Cluster, quorum: nat, op: Op, coordinator: string, key: string)
    requires op.WriteOp? ==> |op.attempts| == |c.regs|
    ensures Seen(c, coordinator, key) <= Seen(Apply(c, quorum, op).0, coordinator, key)
  {
  }

  lemma OtherRevision(regs: seq<Register>, key: string, r: Record, op: Op, w: Record)
    requires op.WriteOp? && |op.attempts| == |regs| && Unrivalled(regs, key, r) && (op.key == key ==> r.revision < w.revision)
    ensures Unrivalled(Round(regs, op.key, w, op.attempts), key, r)
  {
    var after: seq<Register> := Round(regs, op.key, w, op.attempts);
    forall i | 0 <= i < |after| && key in after[i] && after[i][key].revision == r.revision
      ensures after[i][key] == r
    {
      AttemptsAdvance(regs[i], op.key, w, op.attempts[i]);
    }
  }

  lemma {:induction false} InformedKeepUnrivalled(c: Cluster, quorum: nat, ops: seq<Op>, key: string, r: Record)
    requires WellShaped(c, ops) && Informed(c, key, ops, r.revision) && Unrivalled(c.regs, key, r)
    ensures Unrivalled(Run(c, quorum, ops).regs, key, r)
    decreases |ops|
  {
    if ops != [] {
      var op := ops[0];
      var next := Apply(c, quorum, op).0;
      if op.WriteOp? && RecordOf(c, op).revision > Seen(c, op.coordinator, op.key) {
        OtherRevision(c.regs, key, r, op, RecordOf(c, op));
      }
      forall i | 0 <= i < |ops[1..]| && ops[1..][i].WriteOp? && ops[1..][i].key == key
        ensures r.revision <= Seen(next, ops[1..][i].coordinator, key)
      {
        assert ops[1..][i] == ops[i + 1];
        SeenGrows(c, quorum, op, ops[i + 1].coordinator, key);
      }
      InformedKeepUnrivalled(next, quorum, ops[1..], key, r);
    }
  }

  /** When no replica held a rival at its revision before the write, and later
      writers to the key have seen that revision, what a large enough read returns
      is the written record itself or a later one; a tombstone reads as absence. */
  lemma CleanWriteIsRead(c: Cluster, quorum: nat, op: Op, later: seq<Op>, answered: set<int>)
    requires op.WriteOp? && |op.attempts| == |c.regs| && Apply(c, quorum, op).1.None?
    requires WellShaped(c, later) && Informed(Apply(c, quorum, op).0, op.key, later, RecordOf(c, op).revision)
    requires (forall i :: i in answered ==> 0 <= i < |c.regs|) && |answered| > |c.regs| - quorum
    requires Unrivalled(c.regs, op.key, RecordOf(c, op))
    ensures var end := Run(Apply(c, quorum, op).0, quorum, later);
            var w := Winner(end.regs, op.key, answered, |end.regs|);
            && w.Some? && (w.value == RecordOf(c, op) || RecordOf(c, op).revision < w.value.revision)
            && (op.deleted && w.value.revision == RecordOf(c, op).revision ==> Visible(w).None?)
  {
    var next := Apply(c, quorum, op).0;
    AcceptedWriteIsNeverLost(c, quorum, op, later, answered);
    RivalsUnchanged(c.regs, op.key, RecordOf(c, op), op.attempts);
    InformedKeepUnrivalled(next, quorum, later, op.key, RecordOf(c, op));
    var end := Run(next, quorum, later);
    WinnerIsLatest(end.regs, op.key, answered, |end.regs|);
  }

  // ----------------------------------------------------- when a rival is read

  predicate UpTo(reg: Register, key: string, revision: int) {
    key in reg ==> reg[key].revision <= revision
  }

  predicate Below(reg: Register, key: string, revision: int) {
    key in reg ==> reg[key].revision < revision
  }

  /** The replicas that may answer along with replica `i` and leave it the winner. */
  function Yielding(regs: seq<Register>, key: string, revision: int, i: int): set<int> {
    set j | 0 <= j < |regs| && UpTo(regs[j], key, revision) && (j < i ==> Below(regs[j], key, revision))
  }

  ghost predicate BigEnough(regs: seq<Register>, quorum: nat, answered: set<int>) {
    (forall i :: i in answered ==> 0 <= i < |regs|) && |answered| > |regs| - quorum
  }

  /** A read that returns another record at the revision. */
  ghost predicate ReadsRival(regs: seq<Register>, key: string, r: Record, quorum: nat, answered: set<int>) {
    && BigEnough(regs, quorum, answered)
    && var w := Winner(regs, key, answered, |regs|);
       w.Some? && w.value.revision == r.revision && w.value != r
  }

  ghost predicate RivalAt(regs: seq<Register>, key: string, r: Record, i: int) {
    0 <= i < |regs| && key in regs[i] && regs[i][key].revision == r.revision && regs[i][key] != r
  }

  lemma {:induction false} WinnerIs(regs: seq<Register>, key: string, answered: set<int>, n: nat, i: int, revision: int)
    requires n <= |regs| && 0 <= i < |regs| && i in answered && key in regs[i] && regs[i][key].revision == revision
    requires answered <= Yielding(regs, key, revision, i)
    ensures var w := Winner(regs, key, answered, n);
            if n <= i then w.None? || w.value.revision < revision else w == Some(regs[i][key])
    decreases n
  {
    if n > 0 {
      WinnerIs(regs, key, answered, n - 1, i, revision);
      if n - 1 in answered { assert n - 1 in Yielding(regs, key, revision, i); }
    }
  }

  lemma {:induction false} WinnerIsFirst(regs: seq<Register>, key: string, answered: set<int>, n: nat) returns (i: int)
    requires n <= |regs| && Winner(regs, key, answered, n).Some?
    ensures 0 <= i < n && i in answered && key in regs[i] && Winner(regs, key, answered, n) == Some(regs[i][key])
    ensures forall j :: 0 <= j < n && j in answered ==> UpTo(regs[j], key, regs[i][key].revision) && (j < i ==> Below(regs[j], key, regs[i][key].revision))
    decreases n
  {
    var best := Winner(regs, key, answered, n - 1);
    if best == Winner(regs, key, answered, n) && !(n - 1 in answered && key in regs[n - 1] && regs[n - 1][key].revision > best.value.revision) {
      i := WinnerIsFirst(regs, key, answered, n - 1);
    } else {
      i := n - 1;
      WinnerIsLatest(regs, key, answered, n - 1);
    }
  }

  /** Exactly when some large enough read returns another payload at the revision:
      a replica holds one, and enough replicas may answer beside it that hold
      nothing later and, in front of it, nothing as late. */
  lemma RivalIsReadIff(regs: seq<Register>, key: string, r: Record, quorum: nat)
    ensures (exists answered :: ReadsRival(regs, key, r, quorum, answered)) <==>
            (exists i :: RivalAt(regs, key, r, i) && |Yielding(regs, key, r.revision, i)| > |regs| - quorum)
  {
    if answered :| ReadsRival(regs, key, r, quorum, answered) {
      var i := WinnerIsFirst(regs, key, answered, |regs|);
      assert answered <= Yielding(regs, key, r.revision, i);
      SubsetCount(answered, Yielding(regs, key, r.revision, i));
      assert RivalAt(regs, key, r, i);
    }
    if i :| RivalAt(regs, key, r, i) && |Yielding(regs, key, r.revision, i)| > |regs| - quorum {
      var answered := Yielding(regs, key, r.revision, i);
      assert i in answered;
      WinnerIs(regs, key, answered, |regs|, i, r.revision);
      assert ReadsRival(regs, key, r, quorum, answered);
    }
  }

  /** Some attempt got the record through to the replica, acknowledged or not. */
  predicate Reaches(attempts: seq<Attempt>) {
    attempts != [] && (attempts[0] != Lost || Reaches(attempts[1..]))
  }

  lemma {:induction false} ReachedOrNot(reg: Register, key: string, r: Record, attempts: seq<Attempt>)
    ensures Attempts(reg, key, r, attempts).0 == if Reaches(attempts) then Put(reg, key, r) else reg
    decreases |attempts|
  {
    if attempts != [] {
      ReachedOrNot(reg, key, r, attempts[1..]);
      ReachedOrNot(Put(reg, key, r), key, r, attempts[1..]);
    }
  }

  /** The same replicas told from what they held before the write and whether it reached them. */
  function YieldingBefore(regs: seq<Register>, key: string, revision: int, i: int, attempts: seq<seq<Attempt>>): set<int>
    requires |attempts| == |regs|
  {
    set j | 0 <= j < |regs| && UpTo(regs[j], key, revision) && (j < i ==> Below(regs[j], key, revision) && !Reaches(attempts[j]))
  }

  lemma YieldingOfRound(regs: seq<Register>, key: string, r: Record, attempts: seq<seq<Attempt>>, i: int)
    requires |attempts| == |regs|
    ensures Yielding(Round(regs, key, r, attempts), key, r.revision, i) == YieldingBefore(regs, key, r.revision, i, attempts)
  {
    forall j | 0 <= j < |regs|
      ensures UpTo(Round(regs, key, r, attempts)[j], key, r.revision) <==> UpTo(regs[j], key, r.revision)
      ensures Below(Round(regs, key, r, attempts)[j], key, r.revision) <==> Below(regs[j], key, r.revision) && !Reaches(attempts[j])
    {
      ReachedOrNot(regs[j], key, r, attempts[j]);
    }
  }

  lemma RivalsAtRound(regs: seq<Register>, key: string, r: Record, attempts: seq<seq<Attempt>>, i: int)
    requires |attempts| == |regs|
    ensures RivalAt(Round(regs, key, r, attempts), key, r, i) <==> RivalAt(regs, key, r, i)
  {
    if 0 <= i < |regs| { ReachedOrNot(regs[i], key, r, attempts[i]); }
  }

  /** What a read answered by these replicas returns is the record or a later one. */
  ghost predicate ReadsIt(regs: seq<Register>, key: string, r: Record, answered: set<int>) {
    var w := Winner(regs, key, answered, |regs|);
    w.Some? && (w.value == r || r.revision < w.value.revision)
  }

  /** After an accepted write every large enough read returns the record or a
      later one, exactly when before the write no replica held a rival with enough
      replicas beside it that held nothing later and, in front of it, nothing as
      late and were not reached by the write. */
  lemma PayloadIsReadIff(c: Cluster, quorum: nat, op: Op)
    requires op.WriteOp? && |op.attempts| == |c.regs| && Apply(c, quorum, op).1.None?
    ensures var r := RecordOf(c, op);
            (forall answered :: BigEnough(c.regs, quorum, answered) ==> ReadsIt(Apply(c, quorum, op).0.regs, op.key, r, answered)) <==>
            !(exists i :: RivalAt(c.regs, op.key, r, i) && |YieldingBefore(c.regs, op.key, r.revision, i, op.attempts)| > |c.regs| - quorum)
  {
    var r, after := RecordOf(c, op), Apply(c, quorum, op).0.regs;
    RivalIsReadIff(after, op.key, r, quorum);
    forall answered | BigEnough(c.regs, quorum, answered)
      ensures ReadsIt(after, op.key, r, answered) <==> !ReadsRival(after, op.key, r, quorum, answered)
    {
      AcceptedWriteIsNeverLost(c, quorum, op, [], answered);
      assert Run(Apply(c, quorum, op).0, quorum, []) == Apply(c, quorum, op).0;
    }
    forall i
      ensures RivalAt(after, op.key, r, i) <==> RivalAt(c.regs, op.key, r, i)
      ensures Yielding(after, op.key, r.revision, i) == YieldingBefore(c.regs, op.key, r.revision, i, op.attempts)
    {
      RivalsAtRound(c.regs, op.key, r, op.attempts, i);
      YieldingOfRound(c.regs, op.key, r, op.attempts, i);
    }
  }

  lemma OtherRevisionNoRival(regs: seq<Register>, key: string, r: Record, op: Op, w: Record, i: int)
    requires op.WriteOp? && |op.attempts| == |regs| && (op.key == key ==> r.revision < w.revision)
    ensures RivalAt(Round(regs, op.key, w, op.attempts), key, r, i) ==> RivalAt(regs, key, r, i)
  {
    if 0 <= i < |regs| { ReachedOrNot(regs[i], op.key, w, op.attempts[i]); }
  }

  /** Writers that know the revision add no rival. */
  lemma {:induction false} InformedAddNoRival(c: Cluster, quorum: nat, ops: seq<Op>, key: string, r: Record, i: int)
    requires WellShaped(c, ops) && Informed(c, key, ops, r.revision)
    ensures RivalAt(Run(c, quorum, ops).regs, key, r, i) ==> RivalAt(c.regs, key, r, i)
    decreases |ops|
  {
    if ops != [] {
      var op := ops[0];
      var next := Apply(c, quorum, op).0;
      if op.WriteOp? && RecordOf(c, op).revision > Seen(c, op.coordinator, op.key) { OtherRevisionNoRival(c.regs, key, r, op, RecordOf(c, op), i); }
      forall n | 0 <= n < |ops[1..]| && ops[1..][n].WriteOp? && ops[1..][n].key == key
        ensures r.revision <= Seen(next, ops[1..][n].coordinator, key)
      {
        assert ops[1..][n] == ops[n + 1];
        SeenGrows(c, quorum, op, ops[n + 1].coordinator, key);
      }
      InformedAddNoRival(next, quorum, ops[1..], key, r, i);
    }
  }

  lemma YieldingShrinks(before: seq<Register>, after: seq<Register>, key: string, revision: int, i: int)
    requires Advances(before, after)
    ensures Yielding(after, key, revision, i) <= Yielding(before, key, revision, i)
  {
    forall j | j in Yielding(after, key, revision, i)
      ensures j in Yielding(before, key, revision, i)
    {
      assert RegisterAdvances(before[j], after[j]);
    }
  }

  /** Every large enough read after any later history of informed writers returns
      the record or a later one. */
  ghost predicate AlwaysReadsIt(c: Cluster, quorum: nat, op: Op)
    requires op.WriteOp? && |op.attempts| == |c.regs|
  {
    var next := Apply(c, quorum, op).0;
    forall later, answered :: WellShaped(next, later) && Informed(next, op.key, later, RecordOf(c, op).revision) && BigEnough(c.regs, quorum, answered) ==>
      ReadsIt(Run(next, quorum, later).regs, op.key, RecordOf(c, op), answered)
  }

  /** The same condition decides all reads after later writes by coordinators
      that have seen the revision, however many and however they fail. */
  lemma PayloadStaysReadIff(c: Cluster, quorum: nat, op: Op)
    requires op.WriteOp? && |op.attempts| == |c.regs| && Apply(c, quorum, op).1.None?
    ensures var r := RecordOf(c, op);
            AlwaysReadsIt(c, quorum, op) <==>
            !(exists i :: RivalAt(c.regs, op.key, r, i) && |YieldingBefore(c.regs, op.key, r.revision, i, op.attempts)| > |c.regs| - quorum)
  {
    var r, next := RecordOf(c, op), Apply(c, quorum, op).0;
    PayloadIsReadIff(c, quorum, op);
    if AlwaysReadsIt(c, quorum, op) {
      forall answered | BigEnough(c.regs, quorum, answered)
        ensures ReadsIt(next.regs, op.key, r, answered)
      {
        assert Run(next, quorum, []) == next;
      }
    } else {
      var later, answered :| WellShaped(next, later) && Informed(next, op.key, later, r.revision) && BigEnough(c.regs, quorum, answered)
                             && !ReadsIt(Run(next, quorum, later).regs, op.key, r, answered);
      LaterRivalWasThere(c, quorum, op, later, answered);
    }
  }

  lemma LaterRivalWasThere(c: Cluster, quorum: nat, op: Op, later: seq<Op>, answered: set<int>)
    requires op.WriteOp? && |op.attempts| == |c.regs| && Apply(c, quorum, op).1.None?
    requires WellShaped(Apply(c, quorum, op).0, later) && Informed(Apply(c, quorum, op).0, op.key, later, RecordOf(c, op).revision)
    requires BigEnough(c.regs, quorum, answered)
    requires !ReadsIt(Run(Apply(c, quorum, op).0, quorum, later).regs, op.key, RecordOf(c, op), answered)
    ensures exists i :: RivalAt(c.regs, op.key, RecordOf(c, op), i)
              && |YieldingBefore(c.regs, op.key, RecordOf(c, op).revision, i, op.attempts)| > |c.regs| - quorum
  {
    var r, next := RecordOf(c, op), Apply(c, quorum, op).0;
    var end := Run(next, quorum, later);
    AcceptedWriteIsNeverLost(c, quorum, op, later, answered);
    assert ReadsRival(end.regs, op.key, r, quorum, answered);
    RivalIsReadIff(end.regs, op.key, r, quorum);
    var i :| RivalAt(end.regs, op.key, r, i) && |Yielding(end.regs, op.key, r.revision, i)| > |end.regs| - quorum;
    InformedAddNoRival(next, quorum, later, op.key, r, i);
    RivalsAtRound(c.regs, op.key, r, op.attempts, i);
    RunAdvances(next, quorum, later);
    YieldingShrinks(next.regs, end.regs, op.key, r.revision, i);
    SubsetCount(Yielding(end.regs, op.key, r.revision, i), Yielding(next.regs, op.key, r.revision, i));
    YieldingOfRound(c.regs, op.key, r, op.attempts, i);
  }

  /** A write that failed its quorum can leave a rival: the retried write at the
      same revision is accepted, yet a full read returns the other payload. */
  lemma RivalSurvives()
    ensures exists c: Cluster, failed: Op, op: Op ::
      && failed.WriteOp? && op.WriteOp? && |c.regs| == 3 && |failed.attempts| == 3 && |op.attempts| == 3
      && Apply(c, 2, failed).1 == Some(QuorumUnavailable)
      && Apply(Apply(c, 2, failed).0, 2, op).1.None?
      && var end := Apply(Apply(c, 2, failed).0, 2, op).0;
         Winner(end.regs, op.key, {0, 1, 2}, 3) == Some(RecordOf(c, failed)) && RecordOf(c, failed).payload != op.payload
  {
    var none: Register := map[];
    var c := Cluster([none, none, none], map[]);
    var failed := WriteOp("c", "k", "first", None, false, [[Acknowledged], [Lost], [Lost]]);
    var op := WriteOp("c", "k", "second", None, false, [[Acknowledged], [Acknowledged], [Acknowledged]]);
    var r, s := Record(1, false, "first"), Record(1, false, "second");
    assert RecordOf(c, failed) == r;
    assert Attempts(none, "k", r, [Lost]) == (none, false);
    assert Acks(c.regs, "k", r, failed.attempts) == {0};
    var half := Apply(c, 2, failed).0;
    assert half.regs == [none["k" := r], none, none];
    assert RecordOf(half, op) == s;
    assert Acks(half.regs, "k", s, op.attempts) == {0, 1, 2};
    var end := Apply(half, 2, op).0;
    assert end.regs == [none["k" := r], none["k" := s], none["k" := s]];
    assert Winner(end.regs, "k", {0, 1, 2}, 1) == Some(r);
    assert Winner(end.regs, "k", {0, 1, 2}, 2) == Some(r);
    assert Winner(end.regs, "k", {0, 1, 2}, 3) == Some(r);
  }

  /** A coordinator that has read past a replicated write only writes later revisions. */
  lemma ReadThenWriteIsLater(c: Cluster, quorum: nat, key: string, revision: int, coordinator: string, answered: set<int>, write: Op)
    requires Replicated(c.regs, key, revision, quorum)
    requires (forall i :: i in answered ==> 0 <= i < |c.regs|) && |answered| > |c.regs| - quorum
    requires write.WriteOp? && write.coordinator == coordinator && write.key == key && |write.attempts| == |c.regs|
    ensures var after := Apply(c, quorum, ReadOp(coordinator, key, answered)).0;
            Apply(after, quorum, write).1 != Some(StaleRevision) ==> revision < RecordOf(after, write).revision
  {
    ReadSeesReplicated(c.regs, key, revision, quorum, answered);
  }

  // ------------------------------------------------------------- coordinator

  class QuorumReplicator {
    const quorum: nat
    const maxRetries: nat
    var registers: seq<Register>
    var revisions: map<string, int>

    ghost predicate Valid()
      reads this
    {
      1 <= quorum <= |registers|
    }

    constructor (n: nat, quorum: nat, maxRetries: nat)
      requires 1 <= quorum <= n
      ensures Valid() && this.quorum == quorum && this.maxRetries == maxRetries
      ensures |registers| == n && (forall i :: 0 <= i < n ==> registers[i] == map[]) && revisions == map[]
    {
      this.quorum, this.maxRetries := quorum, maxRetries;
      registers, revisions := seq(n, i => map[]), map[];
    }

    function Current(key: string): int
      reads this
    {
      if key in revisions then revisions[key] else 0
    }

    /** Offers the record to one replica until it acknowledges or retries run out. */
    method PutWithRetries(i: nat, key: string, r: Record, attempts: seq<Attempt>) returns (ok: bool)
      requires i < |registers| && |attempts| == maxRetries + 1
      modifies this`registers
      ensures registers == old(registers)[i := Attempts(old(registers)[i], key, r, attempts).0]
      ensures ok == Attempts(old(registers)[i], key, r, attempts).1
    {
      ghost var before := registers;
      assert attempts[0..] == attempts;
      for a := 0 to |attempts|
        invariant |registers| == |before| && registers == before[i := registers[i]]
        invariant Attempts(before[i], key, r, attempts) == Attempts(registers[i], key, r, attempts[a..])
      {
        assert attempts[a..][0] == attempts[a] && attempts[a..][1..] == attempts[a + 1..];
        if attempts[a] != Lost { registers := registers[i := Put(registers[i], key, r)]; }
        if attempts[a] == Acknowledged { return true; }
      }
      return false;
    }

    method Write(key: string, payload: string, revision: Option<int>, deleted: bool, attempts: seq<seq<Attempt>>)
        returns (r: Result<int, Error>)
      requires Valid() && |attempts| == |registers| && forall i :: 0 <= i < |attempts| ==> |attempts[i]| == maxRetries + 1
      modifies this
      ensures Valid() && Advances(old(registers), registers)
      ensures var chosen := ChosenRevision(old(Current(key)), revision);
              var rec := Record(chosen, deleted, payload);
              && (r == Err(StaleRevision) <==> chosen <= old(Current(key)))
              && (r == Err(StaleRevision) ==> registers == old(registers))
              && (r != Err(StaleRevision) ==> registers == Round(old(registers), key, rec, attempts))
              && (r.Ok? <==> old(Current(key)) < chosen && |Acks(old(registers), key, rec, attempts)| >= quorum)
              && (r.Ok? ==> r.value == chosen && Replicated(registers, key, chosen, quorum))
              && revisions == if r.Ok? then old(revisions)[key := chosen] else old(revisions)
    {
      var chosen := ChosenRevision(Current(key), revision);
      if chosen <= Current(key) { return Err(StaleRevision); }
      var rec := Record(chosen, deleted, payload);
      ghost var before := registers;
      ghost var acks: set<int> := {};
      var successes := 0;
      for i := 0 to |registers|
        invariant |registers| == |before| && revisions == old(revisions)
        invariant forall j :: 0 <= j < i ==> registers[j] == Attempts(before[j], key, rec, attempts[j]).0
        invariant forall j :: i <= j < |before| ==> registers[j] == before[j]
        invariant acks == set j | 0 <= j < i && Attempts(before[j], key, rec, attempts[j]).1
        invariant successes == |acks|
      {
        var ok := PutWithRetries(i, key, rec, attempts[i]);
        if ok { successes, acks := successes + 1, acks + {i}; }
      }
      assert registers == Round(before, key, rec, attempts);
      assert acks == Acks(before, key, rec, attempts);
      RoundAdvances(before, key, rec, attempts);
      if successes < quorum { return Err(QuorumUnavailable); }
      AcksReplicate(before, key, rec, attempts, quorum);
      revisions := revisions[key := chosen];
      return Ok(chosen);
    }

    method Read(key: string, answered: set<int>) returns (r: Option<Record>)
      requires Valid()
      modifies this`revisions
      ensures var w := Winner(registers, key, answered, |registers|);
              && r == Visible(w)
              && Current(key) >= old(Current(key)) && (w.Some? ==> Current(key) >= w.value.revision)
              && forall k :: k != key ==> (k in revisions <==> k in old(revisions)) && (k in revisions ==> revisions[k] == old(revisions)[k])
    {
      var best: Option<Record> := None;
      for i := 0 to |registers|
        invariant best == Winner(registers, key, answered, i) && revisions == old(revisions)
      {
        if i in answered && key in registers[i] {
          if best.None? || best.value.revision < registers[i][key].revision { best := Some(registers[i][key]); }
        }
      }
      if best.None? { return None; }
      revisions := revisions[key := if Current(key) < best.value.revision then best.value.revision else Current(key)];
      return Visible(best);
    }

    method Tombstone(key: string, principal: string, attempts: seq<seq<Attempt>>) returns (r: Result<int, Error>)
      requires Valid() && |attempts| == |registers| && forall i :: 0 <= i < |attempts| ==> |attempts[i]| == maxRetries + 1
      modifies this
      ensures Valid() && Advances(old(registers), registers)
      ensures r.Ok? ==> r.value == old(Current(key)) + 1 && Replicated(registers, key, r.value, quorum)
      ensures registers == Round(old(registers), key, Record(old(Current(key)) + 1, true, principal), attempts)
    {
      r := Write(key, principal, None, true, attempts);
    }
  }
}
