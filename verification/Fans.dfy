/** The fan graph of flashsale/promotion/tasks_activity.py: who became whose fan, and by whom. */
module Fans {
  import opened PyText

  /** A fan record: the mama with her customer, who referred the fan, and the fan. */
  datatype Record = Record(mama: int, mamaCus: int, ref: int, fan: int)

  /** `filter(fans_cusid=…)`: the position of the first record of a fan, or the number of records. */
  function Find(recs: seq<Record>, fan: int): (i: nat)
    ensures i <= |recs|
    ensures i < |recs| ==> recs[i].fan == fan
    ensures forall j :: 0 <= j < i ==> recs[j].fan != fan
  {
    if recs == [] || recs[0].fan == fan then 0 else 1 + Find(recs[1..], fan)
  }

  predicate IsFan(recs: seq<Record>, customer: int) {
    Find(recs, customer) < |recs|
  }

  /** What the task would record: a mama who refers is recorded herself, anybody else passes on the mama
      of the own record. */
  function Candidate(recs: seq<Record>, fan: int, ref: int, mama: Option<int>): Option<Record> {
    if mama.Some? then Some(Record(mama.value, ref, ref, fan))
    else if !IsFan(recs, ref) then None
    else Some(recs[Find(recs, ref)].(ref := ref, fan := fan))
  }

  /** `task_appdownloadrecord_update_fans` for a customer and a referrer that were found; `mama` is the
      mama account that the referrer has at that moment. */
  function Update(recs: seq<Record>, fan: int, ref: int, mama: Option<int>): seq<Record> {
    var r := Candidate(recs, fan, ref, mama);
    if r.None? || IsFan(recs, fan) || r.value.mamaCus == fan then recs else recs + [r.value]
  }

  /** `XlmmFans.bind_mama`; it raises, and records nothing, for a mama, a fan, or oneself. */
  function Bind(recs: seq<Record>, fan: int, isMama: bool, mama: int, mamaCus: int): seq<Record> {
    if isMama || IsFan(recs, fan) || mamaCus == fan then recs else recs + [Record(mama, mamaCus, mamaCus, fan)]
  }

  // ---- The invariant ----

  predicate OneRecordEach(recs: seq<Record>) {
    forall i, j :: 0 <= i < j < |recs| ==> recs[i].fan != recs[j].fan
  }

  predicate NobodysOwnFan(recs: seq<Record>) {
    forall i :: 0 <= i < |recs| ==> recs[i].fan != recs[i].mamaCus && recs[i].fan != recs[i].ref
  }

  /** A record names its referrer as the mama, or copies the mama of an older record of the referrer. */
  predicate Founded(recs: seq<Record>, k: nat)
    requires k < |recs|
  {
    || recs[k].ref == recs[k].mamaCus
    || exists j :: 0 <= j < k && Copies(recs[k], recs[j])
  }

  predicate Copies(r: Record, s: Record) {
    s.fan == r.ref && s.mama == r.mama && s.mamaCus == r.mamaCus
  }

  predicate Invariant(recs: seq<Record>) {
    && OneRecordEach(recs)
    && NobodysOwnFan(recs)
    && forall k :: 0 <= k < |recs| ==> Founded(recs, k)
  }

  lemma FoundedSnoc(recs: seq<Record>, r: Record, k: nat)
    requires k < |recs| && Founded(recs, k)
    ensures Founded(recs + [r], k)
  {
    var all := recs + [r];
    assert all[k] == recs[k];
    if recs[k].ref != recs[k].mamaCus {
      var j :| 0 <= j < k && Copies(recs[k], recs[j]);
      assert Copies(all[k], all[j]);
    }
  }

  lemma SnocKeeps(recs: seq<Record>, r: Record)
    requires Invariant(recs)
    requires !IsFan(recs, r.fan) && r.fan != r.mamaCus && r.fan != r.ref
    requires Founded(recs + [r], |recs|)
    ensures Invariant(recs + [r])
  {
    forall k | 0 <= k < |recs| + 1
      ensures Founded(recs + [r], k)
    {
      if k < |recs| {
        FoundedSnoc(recs, r, k);
      }
    }
  }

  /** Whatever account the referrer has at the time of each call. */
  lemma UpdateKeeps(recs: seq<Record>, fan: int, ref: int, mama: Option<int>)
    requires Invariant(recs)
    ensures Invariant(Update(recs, fan, ref, mama))
  {
    var after := Update(recs, fan, ref, mama);
    if after != recs {
      var r := Candidate(recs, fan, ref, mama).value;
      if mama.None? {
        assert Copies((recs + [r])[|recs|], (recs + [r])[Find(recs, ref)]);
      }
      SnocKeeps(recs, r);
    }
  }

  lemma BindKeeps(recs: seq<Record>, fan: int, isMama: bool, mama: int, mamaCus: int)
    requires Invariant(recs)
    ensures Invariant(Bind(recs, fan, isMama, mama, mamaCus))
  {
    if Bind(recs, fan, isMama, mama, mamaCus) != recs {
      SnocKeeps(recs, Record(mama, mamaCus, mamaCus, fan));
    }
  }

  /** A new record is of the fan and the referrer, with the referrer as mama if she is one and with the mama
      of the referrer's first record if not. */
  lemma UpdateFields(recs: seq<Record>, fan: int, ref: int, mama: Option<int>)
    requires Update(recs, fan, ref, mama) != recs
    ensures var after := Update(recs, fan, ref, mama);
      && |after| == |recs| + 1 && after[..|recs|] == recs
      && after[|recs|].fan == fan && after[|recs|].ref == ref
      && (mama.Some? ==> after[|recs|].mama == mama.value && after[|recs|].mamaCus == ref)
      && (mama.None? ==> exists j :: 0 <= j < |recs| && Copies(after[|recs|], recs[j])
                                     && forall i :: 0 <= i < j ==> recs[i].fan != ref)
  {
    if mama.None? {
      assert Copies(Update(recs, fan, ref, mama)[|recs|], recs[Find(recs, ref)]);
    }
  }

  /** A fan bound by hand has the mama herself as referrer; a mama, a fan and oneself are refused. */
  lemma BindFields(recs: seq<Record>, fan: int, isMama: bool, mama: int, mamaCus: int)
    ensures var after := Bind(recs, fan, isMama, mama, mamaCus);
      if isMama || mamaCus == fan || (exists i :: 0 <= i < |recs| && recs[i].fan == fan) then after == recs
      else after == recs + [Record(mama, mamaCus, mamaCus, fan)]
  {
  }

  // ---- Runs ----

  datatype Op =
    | OpUpdate(fan: int, ref: int, mama: Option<int>)
    | OpBind(fan: int, isMama: bool, mamaId: int, mamaCus: int)

  function Apply(recs: seq<Record>, op: Op): seq<Record> {
    match op
    case OpUpdate(fan, ref, mama) => Update(recs, fan, ref, mama)
    case OpBind(fan, isMama, mama, mamaCus) => Bind(recs, fan, isMama, mama, mamaCus)
  }

  function Run(recs: seq<Record>, ops: seq<Op>): seq<Record>
    decreases |ops|
  {
    if ops == [] then recs else Run(Apply(recs, ops[0]), ops[1..])
  }

  /** In every run each fan keeps one record, and nobody becomes their own fan or their own referrer. */
  lemma {:induction false} RunKeepsInvariant(recs: seq<Record>, ops: seq<Op>)
    requires Invariant(recs)
    ensures Invariant(Run(recs, ops))
    decreases |ops|
  {
    if ops != [] {
      match ops[0] {
        case OpUpdate(fan, ref, mama) => UpdateKeeps(recs, fan, ref, mama);
        case OpBind(fan, isMama, mama, mamaCus) => BindKeeps(recs, fan, isMama, mama, mamaCus);
      }
      RunKeepsInvariant(Apply(recs, ops[0]), ops[1..]);
    }
  }

  // ---- Following the referrers ----

  /** From referrer to referrer for at most `steps` steps, stopping at the mama of the first record;
      `None` if there is no record to go on from. */
  function Follow(recs: seq<Record>, customer: int, goal: int, steps: nat): Option<int>
    decreases steps
  {
    if customer == goal || steps == 0 then Some(customer)
    else if !IsFan(recs, customer) then None
    else Follow(recs, recs[Find(recs, customer)].ref, goal, steps - 1)
  }

  /** Following the referrers of a fan arrives at the mama that the fan's record stores, after at most one
      step for the record itself and one for each older record. */
  lemma {:induction false} FollowEndsAtMama(recs: seq<Record>, k: nat)
    requires Invariant(recs) && k < |recs|
    ensures Follow(recs, recs[k].fan, recs[k].mamaCus, k + 1) == Some(recs[k].mamaCus)
  {
    if recs[k].ref != recs[k].mamaCus {
      assert Founded(recs, k);
      var j :| 0 <= j < k && Copies(recs[k], recs[j]);
      FollowEndsAtMama(recs, j);
      FollowLonger(recs, recs[j].fan, recs[k].mamaCus, j + 1, k);
    }
  }

  lemma {:induction false} FollowLonger(recs: seq<Record>, customer: int, goal: int, a: nat, b: nat)
    requires a <= b && Follow(recs, customer, goal, a) == Some(goal)
    ensures Follow(recs, customer, goal, b) == Some(goal)
    decreases a
  {
    if customer != goal {
      FollowLonger(recs, recs[Find(recs, customer)].ref, goal, a - 1, b - 1);
    }
  }

  // ---- The table, updated in place ----

  class FanTable {
    var recs: seq<Record>

    /** The customer and the referrer of the record, when they are found. */
    method UpdateFans(customer: Option<int>, referrer: Option<int>, mama: Option<int>)
      modifies this
      ensures recs == if customer.Some? && referrer.Some?
                      then Update(old(recs), customer.value, referrer.value, mama) else old(recs)
      ensures old(Invariant(recs)) ==> Invariant(recs)
    {
      if customer.None? {
        return;
      }
      if referrer.None? {
        return;
      }
      ghost var before := recs;
      var mamaId, mamaCus;
      if mama.Some? {
        mamaId, mamaCus := mama.value, referrer.value;
      } else {
        if !IsFan(recs, referrer.value) {
          return;
        }
        var r := recs[Find(recs, referrer.value)];
        mamaId, mamaCus := r.mama, r.mamaCus;
      }
      if IsFan(recs, customer.value) {
        return;
      }
      if mamaCus == customer.value {
        return;
      }
      recs := recs + [Record(mamaId, mamaCus, referrer.value, customer.value)];
      if Invariant(before) {
        UpdateKeeps(before, customer.value, referrer.value, mama);
      }
    }
  }
}
