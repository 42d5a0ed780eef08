/** Two rules of flashsale/promotion/tasks_activity.py about the fan graph as a whole, and exactly which
    operations break them: that following the referrers of a customer ends, and that a mama is nobody's
    fan. */
module FanWalks {
  import opened Fans
  import opened Lists
  import opened PyText

  // ---- The walk along the referrers ----

  /** Where a walk stands after `n` steps; it stays with a customer who is nobody's fan. */
  function Walk(recs: seq<Record>, customer: int, n: nat): int
    decreases n
  {
    if n == 0 || !IsFan(recs, customer) then customer
    else Walk(recs, recs[Find(recs, customer)].ref, n - 1)
  }

  ghost predicate Ends(recs: seq<Record>, customer: int) {
    exists n: nat :: !IsFan(recs, Walk(recs, customer, n))
  }

  ghost predicate EndsAt(recs: seq<Record>, customer: int, goal: int) {
    !IsFan(recs, goal) && exists n: nat :: Walk(recs, customer, n) == goal
  }

  /** Every walk ends. */
  ghost predicate AllEnd(recs: seq<Record>) {
    forall customer :: Ends(recs, customer)
  }

  lemma {:induction false} WalkOn(recs: seq<Record>, customer: int, a: nat, b: nat)
    ensures Walk(recs, customer, a + b) == Walk(recs, Walk(recs, customer, a), b)
    decreases a
  {
    if a > 0 && IsFan(recs, customer) {
      WalkOn(recs, recs[Find(recs, customer)].ref, a - 1, b);
    } else if a > 0 {
      assert Walk(recs, customer, b) == customer;
    }
  }

  /** The records used by a walk that goes on for at least `n` steps. */
  function Used(recs: seq<Record>, customer: int, n: nat): seq<int>
    decreases n
  {
    if n == 0 then [] else Used(recs, customer, n - 1) + [Find(recs, Walk(recs, customer, n - 1))]
  }

  lemma {:induction false} UsedAt(recs: seq<Record>, customer: int, n: nat, i: nat)
    requires i < n
    ensures |Used(recs, customer, n)| == n
    ensures Used(recs, customer, n)[i] == Find(recs, Walk(recs, customer, i))
  {
    if n > 1 {
      UsedAt(recs, customer, n - 1, if i < n - 1 then i else 0);
    }
  }

  /** A walk that goes on for `n` steps and then ends meets no customer twice. */
  lemma NeverTwice(recs: seq<Record>, customer: int, n: nat, i: nat, j: nat)
    requires i < j <= n && IsFan(recs, Walk(recs, customer, i + (n - j))) && !IsFan(recs, Walk(recs, customer, n))
    ensures Walk(recs, customer, i) != Walk(recs, customer, j)
  {
    WalkOn(recs, customer, i, n - j);
    WalkOn(recs, customer, j, n - j);
  }

  /** A walk that ends does so within as many steps as there are records. */
  lemma EndsInTime(recs: seq<Record>, customer: int, n: nat)
    requires !IsFan(recs, Walk(recs, customer, n))
    requires forall i :: 0 <= i < n ==> IsFan(recs, Walk(recs, customer, i))
    ensures n <= |recs|
  {
    var used := Used(recs, customer, n);
    var all := Below(|recs|);
    if n > 0 {
      UsedAt(recs, customer, n, 0);
    }
    forall i | 0 <= i < |used|
      ensures used[i] in all
    {
      UsedAt(recs, customer, n, i);
    }
    forall i, j | 0 <= i < j < |used|
      ensures used[i] != used[j]
    {
      UsedAt(recs, customer, n, i);
      UsedAt(recs, customer, n, j);
      NeverTwice(recs, customer, n, i, j);
    }
    DistinctFits(used, all);
  }

  function Below(n: nat): (r: set<int>)
    ensures |r| == n && forall i :: i in r <==> 0 <= i < n
  {
    if n == 0 then {} else Below(n - 1) + {n - 1}
  }

  /** Whether and where a walk ends can be seen by taking as many steps as there are records. */
  lemma {:induction false} EndsAtIff(recs: seq<Record>, customer: int, goal: int)
    ensures EndsAt(recs, customer, goal) <==> Walk(recs, customer, |recs|) == goal && !IsFan(recs, goal)
  {
    if EndsAt(recs, customer, goal) {
      var n: nat :| Walk(recs, customer, n) == goal;
      var m := FirstEnd(recs, customer, n);
      EndsInTime(recs, customer, m);
      WalkOn(recs, customer, m, |recs| - m);
      WalkOn(recs, customer, m, n - m);
    }
  }

  lemma {:induction false} FirstEnd(recs: seq<Record>, customer: int, n: nat) returns (m: nat)
    requires !IsFan(recs, Walk(recs, customer, n))
    ensures m <= n && !IsFan(recs, Walk(recs, customer, m))
    ensures forall i :: 0 <= i < m ==> IsFan(recs, Walk(recs, customer, i))
  {
    m := 0;
    while IsFan(recs, Walk(recs, customer, m))
      invariant m <= n && forall i :: 0 <= i < m ==> IsFan(recs, Walk(recs, customer, i))
      decreases n - m
    {
      m := m + 1;
    }
  }

  // ---- One more record ----

  lemma {:induction false} FindSnoc(recs: seq<Record>, r: Record, customer: int)
    ensures Find(recs + [r], customer)
      == if IsFan(recs, customer) || r.fan == customer then Find(recs, customer) else |recs| + 1
  {
    if recs != [] && recs[0].fan != customer {
      assert (recs + [r])[1..] == recs[1..] + [r];
      FindSnoc(recs[1..], r, customer);
    }
  }

  /** A walk that ends elsewhere than at the new fan goes as before. */
  lemma {:induction false} SameWalk(recs: seq<Record>, r: Record, customer: int, n: nat)
    requires !IsFan(recs, r.fan) && Walk(recs, customer, n) != r.fan && !IsFan(recs, Walk(recs, customer, n))
    ensures Walk(recs + [r], customer, n) == Walk(recs, customer, n)
    decreases n
  {
    FindSnoc(recs, r, customer);
    if n > 0 && IsFan(recs, customer) {
      SameWalk(recs, r, recs[Find(recs, customer)].ref, n - 1);
    }
  }

  /** A walk that ended at the new fan goes on from the fan's referrer. */
  lemma {:induction false} LongerWalk(recs: seq<Record>, r: Record, customer: int, n: nat, k: nat) returns (m: nat)
    requires !IsFan(recs, r.fan) && Walk(recs, customer, n) == r.fan
    ensures Walk(recs + [r], customer, m) == Walk(recs + [r], r.ref, k)
    decreases n
  {
    FindSnoc(recs, r, customer);
    if customer == r.fan {
      m := k + 1;
    } else {
      m := LongerWalk(recs, r, recs[Find(recs, customer)].ref, n - 1, k);
      m := m + 1;
    }
  }

  /** If the referrer's walk ended at the new fan, it now never ends. */
  lemma {:induction false} Trapped(recs: seq<Record>, r: Record, customer: int, k: nat)
    requires !IsFan(recs, r.fan) && EndsAt(recs, customer, r.fan) && EndsAt(recs, r.ref, r.fan)
    ensures IsFan(recs + [r], Walk(recs + [r], customer, k))
    decreases k
  {
    FindSnoc(recs, r, customer);
    var n: nat :| Walk(recs, customer, n) == r.fan;
    if k > 0 {
      if customer == r.fan {
        Trapped(recs, r, r.ref, k - 1);
      } else {
        assert Walk(recs, recs[Find(recs, customer)].ref, n - 1) == r.fan;
        Trapped(recs, r, recs[Find(recs, customer)].ref, k - 1);
      }
    }
  }

  lemma {:induction false} StaysEndless(recs: seq<Record>, r: Record, customer: int, k: nat)
    requires forall n: nat :: IsFan(recs, Walk(recs, customer, n))
    ensures Walk(recs + [r], customer, k) == Walk(recs, customer, k)
    ensures IsFan(recs + [r], Walk(recs, customer, k))
    decreases k
  {
    assert IsFan(recs, Walk(recs, customer, 0));
    FindSnoc(recs, r, customer);
    FindSnoc(recs, r, Walk(recs, customer, k));
    if k > 0 {
      var next := recs[Find(recs, customer)].ref;
      forall n: nat
        ensures IsFan(recs, Walk(recs, next, n))
      {
        assert Walk(recs, next, n) == Walk(recs, customer, n + 1);
      }
      StaysEndless(recs, r, next, k - 1);
    }
  }

  /** With a record for a new fan all walks end exactly when they did before and the referrer's walk did
      not end at the fan. */
  lemma SnocEndsIff(recs: seq<Record>, r: Record)
    requires !IsFan(recs, r.fan)
    ensures AllEnd(recs + [r]) <==> AllEnd(recs) && !EndsAt(recs, r.ref, r.fan)
  {
    if !AllEnd(recs) {
      EndlessStays(recs, r);
    } else if EndsAt(recs, r.ref, r.fan) {
      forall k: nat
        ensures IsFan(recs + [r], Walk(recs + [r], r.ref, k))
      {
        Trapped(recs, r, r.ref, k);
      }
      assert !Ends(recs + [r], r.ref);
    } else {
      forall customer
        ensures Ends(recs + [r], customer)
      {
        StillEnds(recs, r, customer);
      }
    }
  }

  lemma EndlessStays(recs: seq<Record>, r: Record)
    requires !AllEnd(recs)
    ensures !AllEnd(recs + [r])
  {
    var customer :| !Ends(recs, customer);
    forall k: nat
      ensures IsFan(recs + [r], Walk(recs + [r], customer, k))
    {
      StaysEndless(recs, r, customer, k);
    }
    assert !Ends(recs + [r], customer);
  }

  lemma StillEnds(recs: seq<Record>, r: Record, customer: int)
    requires !IsFan(recs, r.fan) && AllEnd(recs) && !EndsAt(recs, r.ref, r.fan)
    ensures Ends(recs + [r], customer)
  {
    assert Ends(recs, customer) && Ends(recs, r.ref);
    var n: nat :| !IsFan(recs, Walk(recs, customer, n));
    var k: nat :| !IsFan(recs, Walk(recs, r.ref, k));
    SameWalk(recs, r, r.ref, k);
    FindSnoc(recs, r, Walk(recs, r.ref, k));
    if Walk(recs, customer, n) == r.fan {
      var m := LongerWalk(recs, r, customer, n, k);
      assert !IsFan(recs + [r], Walk(recs + [r], customer, m));
    } else {
      SameWalk(recs, r, customer, n);
      FindSnoc(recs, r, Walk(recs, customer, n));
      assert !IsFan(recs + [r], Walk(recs + [r], customer, n));
    }
  }

  // ---- Which operation closes a circle ----

  /** The operation makes a record, and the walk from the referrer arrives at the very customer who
      becomes a fan. All of it can be looked up beforehand. */
  predicate Closes(recs: seq<Record>, op: Op) {
    match op
    case OpUpdate(fan, ref, mama) =>
      && (mama.Some? || IsFan(recs, ref))
      && !IsFan(recs, fan)
      && fan != (if mama.Some? then ref else recs[Find(recs, ref)].mamaCus)
      && Walk(recs, ref, |recs|) == fan
    case OpBind(fan, isMama, _, mamaCus) =>
      !isMama && !IsFan(recs, fan) && fan != mamaCus && Walk(recs, mamaCus, |recs|) == fan
  }

  /** One operation: all walks end afterwards exactly when they did before and it does not close a
      circle. */
  lemma StepEndsIff(recs: seq<Record>, op: Op)
    ensures AllEnd(Apply(recs, op)) <==> AllEnd(recs) && !Closes(recs, op)
  {
    var after := Apply(recs, op);
    if after != recs {
      var r := after[|recs|];
      SnocEndsIff(recs, r);
      EndsAtIff(recs, r.ref, r.fan);
    }
  }

  predicate NeverCloses(recs: seq<Record>, ops: seq<Op>)
    decreases |ops|
  {
    ops == [] || (!Closes(recs, ops[0]) && NeverCloses(Apply(recs, ops[0]), ops[1..]))
  }

  /** Over a run: all walks end exactly when no operation closed a circle; a circle never opens again. */
  lemma {:induction false} RunEndsIff(recs: seq<Record>, ops: seq<Op>)
    ensures AllEnd(Run(recs, ops)) <==> AllEnd(recs) && NeverCloses(recs, ops)
    decreases |ops|
  {
    if ops != [] {
      StepEndsIff(recs, ops[0]);
      RunEndsIff(Apply(recs, ops[0]), ops[1..]);
      if !AllEnd(Apply(recs, ops[0])) {
        assert !AllEnd(Run(Apply(recs, ops[0]), ops[1..]));
      }
    }
  }

  /** From the empty table in particular. */
  lemma RunFromEmptyEndsIff(ops: seq<Op>)
    ensures AllEnd(Run([], ops)) <==> NeverCloses([], ops)
  {
    forall customer
      ensures Ends([], customer)
    {
      assert !IsFan([], Walk([], customer, 0));
    }
    RunEndsIff([], ops);
  }

  /** Two mamas who refer each other close a circle, and each record is founded all the same. */
  lemma CircleOfTwo(a: int, b: int, m: int, n: int)
    requires a != b
    ensures var recs := Run([], [OpUpdate(b, a, Some(m)), OpUpdate(a, b, Some(n))]);
      && recs == [Record(m, a, a, b), Record(n, b, b, a)]
      && Invariant(recs)
      && !AllEnd(recs)
  {
    var ops := [OpUpdate(b, a, Some(m)), OpUpdate(a, b, Some(n))];
    var first := [Record(m, a, a, b)];
    var both := first + [Record(n, b, b, a)];
    assert Apply([], ops[0]) == first && Apply(first, ops[1]) == both;
    assert ops[1..] == [ops[1]] && [ops[1]][1..] == [] && Run(both, []) == both;
    assert Run(first, [ops[1]]) == both;
    assert Walk(first, b, 1) == Walk(first, a, 0) == a;
    assert Closes(first, ops[1]);
    RunFromEmptyEndsIff(ops);
  }

  // ---- A mama is nobody's fan ----

  /** The fan records, and the customers who have a mama account at the moment. */
  datatype World = World(recs: seq<Record>, mamas: map<int, int>)

  /** Besides the two ways to become a fan, accounts are opened and closed. */
  datatype Deed =
    | Refer(fan: int, ref: int)
    | BindTo(fan: int, mamaCus: int)
    | OpenAccount(customer: int, mamaId: int)
    | CloseAccount(customer: int)

  function AccountOf(w: World, customer: int): Option<int> {
    if customer in w.mamas then Some(w.mamas[customer]) else None
  }

  predicate Possible(w: World, deed: Deed) {
    deed.BindTo? ==> deed.mamaCus in w.mamas
  }

  function Do(w: World, deed: Deed): World
    requires Possible(w, deed)
  {
    match deed
    case Refer(fan, ref) => w.(recs := Update(w.recs, fan, ref, AccountOf(w, ref)))
    case BindTo(fan, mamaCus) => w.(recs := Bind(w.recs, fan, fan in w.mamas, w.mamas[mamaCus], mamaCus))
    case OpenAccount(customer, mamaId) => w.(mamas := w.mamas[customer := mamaId])
    case CloseAccount(customer) => w.(mamas := w.mamas - {customer})
  }

  /** The second rule of the task's comment. */
  predicate NoMamaIsFan(w: World) {
    forall i :: 0 <= i < |w.recs| ==> w.recs[i].fan !in w.mamas
  }

  /** A referral of a mama that none of the task's own tests refuses, or an account for a fan. Binding by
      hand tests the rule. */
  predicate BreaksRule(w: World, deed: Deed) {
    match deed
    case Refer(fan, ref) =>
      && fan in w.mamas
      && (ref in w.mamas || IsFan(w.recs, ref))
      && !IsFan(w.recs, fan)
      && fan != (if ref in w.mamas then ref else w.recs[Find(w.recs, ref)].mamaCus)
    case BindTo(_, _) => false
    case OpenAccount(customer, _) => IsFan(w.recs, customer)
    case CloseAccount(_) => false
  }

  /** Each operation keeps the rule exactly when it is not one of those. */
  lemma RuleStepIff(w: World, deed: Deed)
    requires NoMamaIsFan(w) && Possible(w, deed)
    ensures NoMamaIsFan(Do(w, deed)) <==> !BreaksRule(w, deed)
  {
    var after := Do(w, deed);
    match deed {
      case Refer(fan, ref) =>
        if after.recs != w.recs {
          assert after.recs[|w.recs|].fan == fan;
          assert forall i :: 0 <= i < |w.recs| ==> after.recs[i] == w.recs[i];
        }
      case BindTo(fan, mamaCus) =>
      case OpenAccount(customer, _) =>
        if IsFan(w.recs, customer) {
          assert after.recs[Find(w.recs, customer)].fan == customer;
        }
      case CloseAccount(_) =>
    }
  }

  predicate IsCourse(w: World, deeds: seq<Deed>)
    decreases |deeds|
  {
    deeds == [] || (Possible(w, deeds[0]) && IsCourse(Do(w, deeds[0]), deeds[1..]))
  }

  /** The rule holds at the start and after each operation. */
  predicate RuleThroughout(w: World, deeds: seq<Deed>)
    requires IsCourse(w, deeds)
    decreases |deeds|
  {
    NoMamaIsFan(w) && (deeds == [] || RuleThroughout(Do(w, deeds[0]), deeds[1..]))
  }

  predicate NeverBreaks(w: World, deeds: seq<Deed>)
    requires IsCourse(w, deeds)
    decreases |deeds|
  {
    deeds == [] || (!BreaksRule(w, deeds[0]) && NeverBreaks(Do(w, deeds[0]), deeds[1..]))
  }

  /** Over a run the rule holds throughout exactly when no operation breaks it. */
  lemma {:induction false} RuleThroughoutIff(w: World, deeds: seq<Deed>)
    requires NoMamaIsFan(w) && IsCourse(w, deeds)
    ensures RuleThroughout(w, deeds) <==> NeverBreaks(w, deeds)
    decreases |deeds|
  {
    if deeds != [] {
      RuleStepIff(w, deeds[0]);
      if !BreaksRule(w, deeds[0]) {
        RuleThroughoutIff(Do(w, deeds[0]), deeds[1..]);
      }
    }
  }
}
