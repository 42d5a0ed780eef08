/** The nine-card red envelopes of flashsale/promotion/tasks_activity.py: whoever holds all nine cards
    wins the event. Each task is one atomic step; the random draws are arguments. */
module Cards {
  import opened Lists
  import opened PyText

  datatype Kind = Cash | Card

  /** The unique key of an envelope: for the friend who invited a customer, or for the customer. */
  datatype Key = Friend(event: int, customer: int) | Own(event: int, customer: int)

  datatype Envelope = Envelope(customer: int, event: int, key: Key, kind: Kind, value: int, open: bool)

  datatype Winner = Winner(customer: int, event: int)

  datatype State = State(envs: seq<Envelope>, winners: seq<Winner>)

  /** An activated application; `from` is 0 without an inviter. */
  datatype Application = Application(event: int, customer: int, from: int)

  /** What the random generator returns: cash or card, and which of each. */
  datatype Draw = Draw(card: bool, cash: nat, pick: nat)

  datatype Prize = Prize(kind: Kind, value: int)

  const SLOTS := [1, 2, 3, 4, 5, 6, 7, 8, 9]
  const CASH_VALUES := [28, 28, 36, 38, 46, 48, 56, 58, 66, 66, 68, 78, 88, 88, 118, 128]

  // ---- Drawing a card ----

  /** A hand without doubles. */
  predicate Proper(values: seq<int>) {
    Distinct(values) && forall i :: 0 <= i < |values| ==> 1 <= values[i] <= 9
  }

  /** `list.remove`: drops the first occurrence. */
  function Remove(s: seq<int>, v: int): (r: seq<int>)
    requires v in s
    ensures |r| == |s| - 1
  {
    if s[0] == v then s[1..] else [s[0]] + Remove(s[1..], v)
  }

  lemma DistinctCons(v: int, s: seq<int>)
    ensures Distinct([v] + s) <==> Distinct(s) && v !in s
  {
    var all := [v] + s;
    assert forall i :: 0 <= i < |s| ==> all[i + 1] == s[i];
    if Distinct(all) {
      forall i | 0 <= i < |s|
        ensures s[i] != v
      {
        assert all[0] != all[i + 1];
      }
      forall i, j | 0 <= i < j < |s|
        ensures s[i] != s[j]
      {
        assert all[i + 1] != all[j + 1];
      }
    }
  }

  lemma {:induction false} RemoveSpec(s: seq<int>, v: int)
    requires v in s && Distinct(s)
    ensures Distinct(Remove(s, v)) && forall u :: u in Remove(s, v) <==> u in s && u != v
  {
    assert s == [s[0]] + s[1..];
    DistinctCons(s[0], s[1..]);
    if s[0] != v {
      RemoveSpec(s[1..], v);
      DistinctCons(s[0], Remove(s[1..], v));
    }
  }

  /** The slots left by the cards in hand; `None` is the exception of `remove`. */
  function Left(records: seq<int>): Option<seq<int>> {
    if records == [] then Some(SLOTS)
    else
      var rest := Left(records[..|records| - 1]);
      var v := records[|records| - 1];
      if rest.None? || v !in rest.value then None else Some(Remove(rest.value, v))
  }

  lemma InSlots(v: int)
    ensures v in SLOTS <==> 1 <= v <= 9
  {
    if 1 <= v <= 9 {
      assert SLOTS[v - 1] == v;
    }
  }

  /** The removals succeed exactly for a hand without doubles, and leave the missing cards. */
  lemma {:induction false} LeftSpec(records: seq<int>)
    ensures Left(records).Some? <==> Proper(records)
    ensures Left(records).Some? ==>
              && |Left(records).value| == 9 - |records|
              && Distinct(Left(records).value)
              && forall v :: v in Left(records).value <==> 1 <= v <= 9 && v !in records
  {
    if records == [] {
      forall v
        ensures v in SLOTS <==> 1 <= v <= 9
      {
        InSlots(v);
      }
    } else {
      var front, v := records[..|records| - 1], records[|records| - 1];
      LeftSpec(front);
      assert records == front + [v];
      ProperSnoc(front, v);
      if Left(records).Some? {
        RemoveSpec(Left(front).value, v);
      }
    }
  }

  lemma ProperSnoc(front: seq<int>, v: int)
    ensures Proper(front + [v]) <==> Proper(front) && 1 <= v <= 9 && v !in front
  {
    var all := front + [v];
    if Proper(all) {
      assert all[|front|] == v;
      assert forall i :: 0 <= i < |front| ==> all[i] == front[i];
    }
  }

  /** `gen_envelope_type_value_pair`; `None` is an exception. */
  function GenPair(records: seq<int>, draw: Draw): Option<Prize> {
    var cash := Prize(Cash, CASH_VALUES[draw.cash % 16]);
    if |records| >= 9 || !draw.card then Some(cash)
    else
      var slots := Left(records);
      if slots.None? || slots.value == [] then None
      else Some(Prize(Card, slots.value[draw.pick % |slots.value|]))
  }

  /** The draw raises exactly when a card is drawn to a hand with doubles; otherwise a card drawn is one
      that was missing. */
  lemma GenPairSpec(records: seq<int>, draw: Draw)
    ensures GenPair(records, draw).None? <==> |records| < 9 && draw.card && !Proper(records)
    ensures var p := GenPair(records, draw);
      p.Some? && p.value.kind == Card ==> Proper(records + [p.value.value])
  {
    LeftSpec(records);
    var p := GenPair(records, draw);
    if p.Some? && p.value.kind == Card {
      assert p.value.value in Left(records).value;
      ProperSnoc(records, p.value.value);
    }
  }

  // ---- The tables ----

  predicate IsCard(env: Envelope, customer: int, event: int) {
    env.customer == customer && env.event == event && env.kind == Card
  }

  /** The card values of a customer in an event, opened or not. */
  function Hand(envs: seq<Envelope>, customer: int, event: int): seq<int> {
    if envs == [] then []
    else
      var last := envs[|envs| - 1];
      Hand(envs[..|envs| - 1], customer, event) + if IsCard(last, customer, event) then [last.value] else []
  }

  function OpenHand(envs: seq<Envelope>, customer: int, event: int): seq<int> {
    if envs == [] then []
    else
      var last := envs[|envs| - 1];
      OpenHand(envs[..|envs| - 1], customer, event)
      + if IsCard(last, customer, event) && last.open then [last.value] else []
  }

  /** The opened cards of a customer, in all events. */
  function OpenCount(envs: seq<Envelope>, customer: int): nat {
    if envs == [] then 0
    else
      var last := envs[|envs| - 1];
      OpenCount(envs[..|envs| - 1], customer)
      + if last.customer == customer && last.kind == Card && last.open then 1 else 0
  }

  predicate HasKey(envs: seq<Envelope>, key: Key) {
    exists i :: 0 <= i < |envs| && envs[i].key == key
  }

  /** What an activation adds for the inviter; `None` is an exception. */
  function Invite(envs: seq<Envelope>, app: Application, draw: Draw): Option<seq<Envelope>> {
    if app.from == 0 || HasKey(envs, Friend(app.event, app.customer)) then Some(envs)
    else
      var p := GenPair(Hand(envs, app.from, app.event), draw);
      if p.None? then None
      else
        var key := Friend(app.event, app.customer);
        Some(envs + [Envelope(app.from, app.event, key, p.value.kind, p.value.value, false)])
  }

  /** Every customer is given card 1 for the own activation. */
  function Welcome(envs: seq<Envelope>, app: Application): seq<Envelope> {
    var key := Own(app.event, app.customer);
    if HasKey(envs, key) then envs else envs + [Envelope(app.customer, app.event, key, Card, 1, false)]
  }

  /** `task_generate_red_envelope`; an exception leaves the tables alone. */
  function Activate(st: State, app: Application, draw: Draw): State {
    var invited := Invite(st.envs, app, draw);
    if invited.None? then st else st.(envs := Welcome(invited.value, app))
  }

  function Open(st: State, i: nat): State
    requires i < |st.envs|
  {
    st.(envs := st.envs[i := st.envs[i].(open := true)])
  }

  /** The trigger of `task_decide_award_winner`: an opened card. */
  predicate IsOpenCard(env: Envelope) {
    env.kind == Card && env.open
  }

  function Decide(st: State, i: nat): State
    requires i < |st.envs| && IsOpenCard(st.envs[i])
  {
    var w := Winner(st.envs[i].customer, st.envs[i].event);
    if OpenCount(st.envs, w.customer) < 9 || w in st.winners then st else st.(winners := st.winners + [w])
  }

  // ---- Who is given what ----

  /** The amounts of a cash envelope. */
  predicate IsCash(value: int) {
    value in [28, 36, 38, 46, 48, 56, 58, 66, 68, 78, 88, 118, 128]
  }

  /** A customer's first activation in an event gives the inviter, if there is one, a single unopened envelope
      under the key of that customer: a card that the inviter lacks, if a card is drawn and there are fewer
      than nine, and cash otherwise. */
  lemma InviterIsGiven(envs: seq<Envelope>, app: Application, draw: Draw)
    requires Invite(envs, app, draw).Some?
    ensures var after, hand := Invite(envs, app, draw).value, Hand(envs, app.from, app.event);
      && (app.from == 0 || HasKey(envs, Friend(app.event, app.customer)) ==> after == envs)
      && (app.from != 0 && !HasKey(envs, Friend(app.event, app.customer)) ==>
            && |after| == |envs| + 1 && after[..|envs|] == envs
            && var env := after[|envs|];
            && env.customer == app.from && env.event == app.event && !env.open
            && env.key == Friend(app.event, app.customer)
            && (draw.card && |hand| < 9 ==> env.kind == Card && 1 <= env.value <= 9 && env.value !in hand)
            && (!draw.card || |hand| >= 9 ==> env.kind == Cash && IsCash(env.value)))
  {
    var hand := Hand(envs, app.from, app.event);
    if app.from != 0 && !HasKey(envs, Friend(app.event, app.customer)) {
      GenPairSpec(hand, draw);
      LeftSpec(hand);
      CashIsListed(draw.cash % 16);
      var after := Invite(envs, app, draw).value;
      if after[|envs|].kind == Card {
        ProperSnoc(hand, after[|envs|].value);
      }
    }
  }

  lemma CashIsListed(i: nat)
    requires i < 16
    ensures IsCash(CASH_VALUES[i])
  {
  }

  /** Then the customer is given card 1, unopened, once for each event. */
  lemma CustomerIsGiven(envs: seq<Envelope>, app: Application)
    ensures var after := Welcome(envs, app);
      && (HasKey(envs, Own(app.event, app.customer)) ==> after == envs)
      && (!HasKey(envs, Own(app.event, app.customer)) ==>
            after == envs + [Envelope(app.customer, app.event, Own(app.event, app.customer), Card, 1, false)])
  {
  }

  // ---- No doubles ----

  ghost predicate NoDoubles(envs: seq<Envelope>) {
    forall c, e :: Proper(Hand(envs, c, e))
  }

  /** Who holds a card has been given the first one. */
  ghost predicate OwnFirst(envs: seq<Envelope>) {
    forall c, e :: Hand(envs, c, e) != [] ==> HasKey(envs, Own(e, c))
  }

  lemma HandSnoc(envs: seq<Envelope>, env: Envelope, c: int, e: int)
    ensures Hand(envs + [env], c, e) == if IsCard(env, c, e) then Hand(envs, c, e) + [env.value] else Hand(envs, c, e)
    ensures forall key :: HasKey(envs + [env], key) <==> HasKey(envs, key) || key == env.key
  {
    var all := envs + [env];
    assert all[..|envs|] == envs && all[|envs|] == env;
    assert Hand(envs, c, e) + [] == Hand(envs, c, e);
    forall key
      ensures HasKey(all, key) <==> HasKey(envs, key) || key == env.key
    {
      if HasKey(envs, key) {
        var i :| 0 <= i < |envs| && envs[i].key == key;
        assert all[i].key == key;
      }
    }
  }

  lemma SnocDoubles(envs: seq<Envelope>, env: Envelope)
    requires NoDoubles(envs)
    ensures NoDoubles(envs + [env])
      <==> (env.kind == Card ==> Proper(Hand(envs, env.customer, env.event) + [env.value]))
  {
    HandSnoc(envs, env, env.customer, env.event);
    forall c, e | !IsCard(env, c, e)
      ensures Proper(Hand(envs + [env], c, e))
    {
      HandSnoc(envs, env, c, e);
    }
    if env.kind == Card && NoDoubles(envs + [env]) {
      assert Proper(Hand(envs + [env], env.customer, env.event));
    }
  }

  /** Without doubles no invitation raises, and none brings a double. */
  lemma InviteSpec(envs: seq<Envelope>, app: Application, draw: Draw)
    requires NoDoubles(envs)
    ensures Invite(envs, app, draw).Some? && NoDoubles(Invite(envs, app, draw).value)
  {
    var hand := Hand(envs, app.from, app.event);
    assert Proper(hand);
    GenPairSpec(hand, draw);
    var after := Invite(envs, app, draw);
    if after.value != envs {
      SnocDoubles(envs, after.value[|envs|]);
    }
  }

  /** Customers who invite themselves draw card 1 just before they are given it. */
  predicate DrawsOwnCardOne(envs: seq<Envelope>, app: Application, draw: Draw) {
    && app.from == app.customer != 0
    && !HasKey(envs, Friend(app.event, app.customer))
    && GenPair(Hand(envs, app.customer, app.event), draw) == Some(Prize(Card, 1))
  }

  /** An activation keeps all hands without doubles exactly when it does not hand card 1 to somebody who
      holds it already, by an invitation that came before the own activation. */
  lemma ActivateDoublesIff(st: State, app: Application, draw: Draw)
    requires NoDoubles(st.envs)
    ensures NoDoubles(Activate(st, app, draw).envs)
      <==> HasKey(st.envs, Own(app.event, app.customer))
           || (1 !in Hand(st.envs, app.customer, app.event) && !DrawsOwnCardOne(st.envs, app, draw))
  {
    InviteSpec(st.envs, app, draw);
    InviteHand(st.envs, app, draw);
    var envs := Invite(st.envs, app, draw).value;
    var hand := Hand(envs, app.customer, app.event);
    assert Proper(hand);
    ProperSnoc(hand, 1);
    SnocDoubles(envs, Envelope(app.customer, app.event, Own(app.event, app.customer), Card, 1, false));
  }

  /** What an invitation changes for the customer who is activated. */
  lemma InviteHand(envs: seq<Envelope>, app: Application, draw: Draw)
    requires Invite(envs, app, draw).Some?
    ensures var after := Invite(envs, app, draw).value;
      && (forall c, e :: HasKey(after, Own(e, c)) <==> HasKey(envs, Own(e, c)))
      && (1 in Hand(after, app.customer, app.event)
          <==> 1 in Hand(envs, app.customer, app.event) || DrawsOwnCardOne(envs, app, draw))
  {
    var after := Invite(envs, app, draw).value;
    if after != envs {
      HandSnoc(envs, after[|envs|], app.customer, app.event);
    }
  }

  /** The inviter has been activated before. */
  predicate InOrder(st: State, app: Application) {
    app.from != 0 ==> HasKey(st.envs, Own(app.event, app.from))
  }

  lemma OwnFirstSnoc(envs: seq<Envelope>, env: Envelope)
    requires OwnFirst(envs)
    requires env.kind == Card ==> HasKey(envs + [env], Own(env.event, env.customer))
    ensures OwnFirst(envs + [env])
  {
    forall c, e | Hand(envs + [env], c, e) != []
      ensures HasKey(envs + [env], Own(e, c))
    {
      HandSnoc(envs, env, c, e);
    }
  }

  /** Activations in order keep the hands without doubles, and no task raises. */
  lemma ActivateInOrder(st: State, app: Application, draw: Draw)
    requires NoDoubles(st.envs) && OwnFirst(st.envs) && InOrder(st, app)
    ensures Invite(st.envs, app, draw).Some?
    ensures NoDoubles(Activate(st, app, draw).envs) && OwnFirst(Activate(st, app, draw).envs)
  {
    InviteSpec(st.envs, app, draw);
    ActivateDoublesIff(st, app, draw);
    var envs := Invite(st.envs, app, draw).value;
    if envs != st.envs {
      HandSnoc(st.envs, envs[|st.envs|], app.from, app.event);
      OwnFirstSnoc(st.envs, envs[|st.envs|]);
    }
    var own := Envelope(app.customer, app.event, Own(app.event, app.customer), Card, 1, false);
    HandSnoc(envs, own, app.customer, app.event);
    OwnFirstSnoc(envs, own);
  }

  // ---- Opening ----

  lemma {:induction false} OpenKeeps(envs: seq<Envelope>, i: nat, c: int, e: int)
    requires i < |envs|
    ensures var after := envs[i := envs[i].(open := true)];
      && Hand(after, c, e) == Hand(envs, c, e)
      && (forall v :: v in OpenHand(envs, c, e) ==> v in OpenHand(after, c, e))
  {
    var after := envs[i := envs[i].(open := true)];
    var n := |envs| - 1;
    if i == n {
      assert after[..n] == envs[..n];
    } else {
      assert after[..n] == envs[..n][i := envs[i].(open := true)];
      OpenKeeps(envs[..n], i, c, e);
    }
  }

  /** Opened cards are among the cards; so a hand without doubles has none open. */
  lemma {:induction false} OpenIsProper(envs: seq<Envelope>, c: int, e: int)
    requires Proper(Hand(envs, c, e))
    ensures Proper(OpenHand(envs, c, e))
    ensures forall v :: v in OpenHand(envs, c, e) ==> v in Hand(envs, c, e)
  {
    if envs != [] {
      var front, last := envs[..|envs| - 1], envs[|envs| - 1];
      if IsCard(last, c, e) {
        ProperSnoc(Hand(front, c, e), last.value);
        OpenIsProper(front, c, e);
        ProperSnoc(OpenHand(front, c, e), last.value);
      } else {
        assert Hand(envs, c, e) == Hand(front, c, e);
        OpenIsProper(front, c, e);
      }
    }
  }

  function Elements(s: seq<int>): set<int> {
    set v | v in s
  }

  lemma {:induction false} DistinctCount(s: seq<int>)
    requires Distinct(s)
    ensures |Elements(s)| == |s|
  {
    if s != [] {
      var front, v := s[..|s| - 1], s[|s| - 1];
      DistinctCount(front);
      assert Elements(s) == Elements(front) + {v};
      assert v !in Elements(front);
    }
  }

  /** Nine cards without doubles are all nine, and nobody has more. */
  lemma NineAreAll(hand: seq<int>)
    requires Proper(hand)
    ensures |hand| <= 9
    ensures |hand| == 9 <==> HoldsAll(hand)
  {
    DistinctCount(hand);
    DistinctCount(SLOTS);
    forall v
      ensures v in SLOTS <==> 1 <= v <= 9
    {
      InSlots(v);
    }
    assert Elements(hand) <= Elements(SLOTS);
    SubsetCount(Elements(hand), Elements(SLOTS));
    assert HoldsAll(hand) <==> Elements(SLOTS) <= Elements(hand) by {
      assert forall v :: v in Elements(hand) <==> v in hand;
      assert forall v :: v in Elements(SLOTS) <==> 1 <= v <= 9;
    }
  }

  predicate HoldsAll(hand: seq<int>) {
    forall v :: 1 <= v <= 9 ==> v in hand
  }

  lemma {:induction false} CountIsMore(envs: seq<Envelope>, c: int, e: int)
    ensures |OpenHand(envs, c, e)| <= OpenCount(envs, c)
    ensures OneEvent(envs, e) ==> |OpenHand(envs, c, e)| == OpenCount(envs, c)
  {
    if envs != [] {
      CountIsMore(envs[..|envs| - 1], c, e);
    }
  }

  predicate OneEvent(envs: seq<Envelope>, e: int) {
    forall i :: 0 <= i < |envs| ==> envs[i].event == e
  }

  // ---- Runs ----

  datatype Op = OpActivate(app: Application, draw: Draw) | OpOpen(i: nat) | OpDecide(i: nat)

  predicate Enabled(st: State, op: Op) {
    match op
    case OpActivate(_, _) => true
    case OpOpen(i) => i < |st.envs|
    case OpDecide(i) => i < |st.envs| && IsOpenCard(st.envs[i])
  }

  function Apply(st: State, op: Op): State
    requires Enabled(st, op)
  {
    match op
    case OpActivate(app, draw) => Activate(st, app, draw)
    case OpOpen(i) => Open(st, i)
    case OpDecide(i) => Decide(st, i)
  }

  predicate IsRun(st: State, ops: seq<Op>)
    decreases |ops|
  {
    ops == [] || (Enabled(st, ops[0]) && IsRun(Apply(st, ops[0]), ops[1..]))
  }

  function End(st: State, ops: seq<Op>): State
    requires IsRun(st, ops)
    decreases |ops|
  {
    if ops == [] then st else End(Apply(st, ops[0]), ops[1..])
  }

  // ---- Card 1 is the only one that is given twice ----

  /** The cards of a hand other than card 1. */
  function Others(hand: seq<int>): seq<int> {
    if hand == [] then []
    else
      var v := hand[|hand| - 1];
      Others(hand[..|hand| - 1]) + if v == 1 then [] else [v]
  }

  function Ones(hand: seq<int>): nat {
    if hand == [] then 0 else Ones(hand[..|hand| - 1]) + if hand[|hand| - 1] == 1 then 1 else 0
  }

  /** Doubles of card 1 at most. */
  predicate Tidy(hand: seq<int>) {
    Proper(Others(hand)) && forall i :: 0 <= i < |hand| ==> 1 <= hand[i] <= 9
  }

  lemma {:induction false} OthersSpec(hand: seq<int>)
    ensures |hand| == Ones(hand) + |Others(hand)|
    ensures 1 in hand <==> Ones(hand) > 0
    ensures forall v :: v in Others(hand) <==> v in hand && v != 1
  {
    if hand != [] {
      assert hand == hand[..|hand| - 1] + [hand[|hand| - 1]];
      OthersSpec(hand[..|hand| - 1]);
    }
  }

  lemma TidySnoc(front: seq<int>, v: int)
    ensures Ones(front + [v]) == Ones(front) + if v == 1 then 1 else 0
    ensures Tidy(front + [v]) <==> Tidy(front) && 1 <= v <= 9 && (v == 1 || v !in front)
  {
    var all := front + [v];
    assert all[..|front|] == front && all[|front|] == v;
    assert forall i :: 0 <= i < |front| ==> all[i] == front[i];
    OthersSpec(front);
    ProperSnoc(Others(front), v);
    assert Others(front) + [] == Others(front);
  }

  /** A tidy hand holds all nine cards exactly when it has card 1 and eight others. */
  lemma TidyHoldsAllIff(hand: seq<int>)
    requires Tidy(hand)
    ensures |Others(hand)| <= 8
    ensures HoldsAll(hand) <==> 1 in hand && |Others(hand)| >= 8
  {
    var once := [1] + Others(hand);
    OthersSpec(hand);
    DistinctCons(1, Others(hand));
    assert Proper(once);
    NineAreAll(once);
    assert HoldsAll(hand) <==> 1 in hand && HoldsAll(once) by {
      assert forall v :: v in once <==> v == 1 || v in Others(hand);
    }
  }

  /** A hand is tidy, and card 1 came at most once by invitations and once for the own activation. */
  predicate TidyAt(envs: seq<Envelope>, c: int, e: int) {
    Tidy(Hand(envs, c, e)) && Ones(Hand(envs, c, e)) <= if HasKey(envs, Own(e, c)) then 2 else 1
  }

  ghost predicate AllTidy(envs: seq<Envelope>) {
    forall c, e :: TidyAt(envs, c, e)
  }

  lemma SnocTidy(envs: seq<Envelope>, env: Envelope)
    requires AllTidy(envs)
    requires env.kind == Card ==>
               || Proper(Hand(envs, env.customer, env.event) + [env.value])
               || (env.value == 1 && env.key == Own(env.event, env.customer) && !HasKey(envs, env.key))
    ensures AllTidy(envs + [env])
  {
    forall c, e
      ensures TidyAt(envs + [env], c, e)
    {
      var hand := Hand(envs, c, e);
      assert TidyAt(envs, c, e);
      HandSnoc(envs, env, c, e);
      TidySnoc(hand, env.value);
      ProperSnoc(hand, env.value);
      OthersSpec(hand);
    }
  }

  lemma ActivateTidy(st: State, app: Application, draw: Draw)
    requires AllTidy(st.envs)
    ensures AllTidy(Activate(st, app, draw).envs)
  {
    var invited := Invite(st.envs, app, draw);
    if invited.Some? {
      if invited.value != st.envs {
        GenPairSpec(Hand(st.envs, app.from, app.event), draw);
        SnocTidy(st.envs, invited.value[|st.envs|]);
      }
      if !HasKey(invited.value, Own(app.event, app.customer)) {
        SnocTidy(invited.value, Envelope(app.customer, app.event, Own(app.event, app.customer), Card, 1, false));
      }
    }
  }

  lemma OpenTidy(st: State, i: nat)
    requires AllTidy(st.envs) && i < |st.envs|
    ensures AllTidy(Open(st, i).envs)
  {
    var after := Open(st, i).envs;
    forall c, e
      ensures TidyAt(after, c, e)
    {
      assert TidyAt(st.envs, c, e);
      OpenKeeps(st.envs, i, c, e);
      if HasKey(st.envs, Own(e, c)) {
        var k :| 0 <= k < |st.envs| && st.envs[k].key == Own(e, c);
        assert after[k].key == Own(e, c);
      }
    }
  }

  lemma StepTidy(st: State, op: Op)
    requires AllTidy(st.envs) && Enabled(st, op)
    ensures AllTidy(Apply(st, op).envs)
  {
    match op
    case OpActivate(app, draw) => ActivateTidy(st, app, draw);
    case OpOpen(i) => OpenTidy(st, i);
    case OpDecide(_) =>
  }

  /** Over every run, over all events and in any order, no hand has doubles but of card 1, and that at
      most twice. */
  lemma {:induction false} RunTidy(st: State, ops: seq<Op>)
    requires AllTidy(st.envs) && IsRun(st, ops)
    ensures AllTidy(End(st, ops).envs)
    decreases |ops|
  {
    if ops != [] {
      StepTidy(st, ops[0]);
      RunTidy(Apply(st, ops[0]), ops[1..]);
    }
  }

  const START := State([], [])

  lemma StartTidy()
    ensures AllTidy(START.envs)
  {
    assert forall c, e :: TidyAt(START.envs, c, e);
  }

  predicate Among(some: seq<int>, hand: seq<int>) {
    Tidy(some) && Ones(some) <= Ones(hand) && forall v :: v in some ==> v in hand
  }

  /** Opened cards are among the cards. */
  lemma {:induction false} OpenIsTidy(envs: seq<Envelope>, c: int, e: int)
    requires Tidy(Hand(envs, c, e))
    ensures Among(OpenHand(envs, c, e), Hand(envs, c, e))
  {
    if envs != [] {
      var front, last := envs[..|envs| - 1], envs[|envs| - 1];
      TidyNext(OpenHand(front, c, e), Hand(front, c, e), last.value, IsCard(last, c, e), last.open);
      OpenIsTidy(front, c, e);
    }
  }

  lemma AmongSnoc(some: seq<int>, hand: seq<int>, v: int)
    requires Tidy(hand + [v])
    ensures Among(some, hand) ==> Among(some, hand + [v]) && Among(some + [v], hand + [v])
  {
    TidySnoc(hand, v);
    TidySnoc(some, v);
  }

  lemma TidyNext(some: seq<int>, hand: seq<int>, v: int, card: bool, shown: bool)
    requires Tidy(hand + if card then [v] else [])
    ensures Tidy(hand)
    ensures Among(some, hand) ==> Among(some + (if card && shown then [v] else []), hand + if card then [v] else [])
  {
    assert hand + [] == hand && some + [] == some;
    if card {
      TidySnoc(hand, v);
      AmongSnoc(some, hand, v);
    }
  }

  // ---- Which decision records a winner who lacks cards ----

  /** Card 1 and eight others, opened, of the event. */
  predicate Complete(envs: seq<Envelope>, c: int, e: int) {
    1 in OpenHand(envs, c, e) && |Others(OpenHand(envs, c, e))| >= 8
  }

  /** The decision records a new winner: the guards of the task, which counts the cards of all events and
      counts doubles. */
  predicate Records(st: State, i: nat)
    requires i < |st.envs|
  {
    OpenCount(st.envs, st.envs[i].customer) >= 9 && Winner(st.envs[i].customer, st.envs[i].event) !in st.winners
  }

  /** After every run: whoever is recorded next holds all nine cards of the event exactly when card 1 and
      eight others of the event are among those opened. If there is no other event, that fails exactly
      when there are just nine of them and card 1 is there twice. */
  lemma WinnerHoldsAllIff(ops: seq<Op>, i: nat)
    requires IsRun(START, ops) && i < |End(START, ops).envs|
    requires Records(End(START, ops), i)
    ensures var envs := End(START, ops).envs; var c, e := envs[i].customer, envs[i].event;
      && (HoldsAll(OpenHand(envs, c, e)) <==> Complete(envs, c, e))
      && (OneEvent(envs, e) ==>
            (!HoldsAll(OpenHand(envs, c, e)) <==> OpenCount(envs, c) == 9 && Ones(OpenHand(envs, c, e)) == 2))
  {
    StartTidy();
    RunTidy(START, ops);
    var envs := End(START, ops).envs;
    var c, e := envs[i].customer, envs[i].event;
    assert TidyAt(envs, c, e);
    OpenIsTidy(envs, c, e);
    TidyHoldsAllIff(OpenHand(envs, c, e));
    OthersSpec(OpenHand(envs, c, e));
    CountIsMore(envs, c, e);
  }

  /** Every recorded winner holds all nine cards, opened, and is recorded once. */
  predicate WinnersHoldAll(st: State) {
    && (forall i, j :: 0 <= i < j < |st.winners| ==> st.winners[i] != st.winners[j])
    && (forall i :: 0 <= i < |st.winners| ==>
          HoldsAll(OpenHand(st.envs, st.winners[i].customer, st.winners[i].event)))
  }

  lemma {:induction false} OpenHandGrows(envs: seq<Envelope>, more: seq<Envelope>, c: int, e: int)
    ensures forall v :: v in OpenHand(envs, c, e) ==> v in OpenHand(envs + more, c, e)
  {
    if more == [] {
      assert envs + more == envs;
    } else {
      var n := |more| - 1;
      OpenHandGrows(envs, more[..n], c, e);
      assert (envs + more)[..|envs| + n] == envs + more[..n];
    }
  }

  lemma ActivateGrows(st: State, app: Application, draw: Draw)
    ensures var after := Activate(st, app, draw);
      && after.winners == st.winners
      && |st.envs| <= |after.envs| && after.envs[..|st.envs|] == st.envs
      && forall i :: |st.envs| <= i < |after.envs| ==> after.envs[i].event == app.event
  {
  }

  lemma ActivateKeepsWinners(st: State, app: Application, draw: Draw)
    requires WinnersHoldAll(st)
    ensures WinnersHoldAll(Activate(st, app, draw))
  {
    ActivateGrows(st, app, draw);
    var after := Activate(st, app, draw);
    var more := after.envs[|st.envs|..];
    assert after.envs == st.envs + more;
    forall i | 0 <= i < |after.winners|
      ensures HoldsAll(OpenHand(after.envs, after.winners[i].customer, after.winners[i].event))
    {
      OpenHandGrows(st.envs, more, st.winners[i].customer, st.winners[i].event);
    }
  }

  lemma OpenKeepsWinners(st: State, i: nat)
    requires WinnersHoldAll(st) && i < |st.envs|
    ensures WinnersHoldAll(Open(st, i))
  {
    forall k | 0 <= k < |st.winners|
      ensures HoldsAll(OpenHand(Open(st, i).envs, st.winners[k].customer, st.winners[k].event))
    {
      OpenKeeps(st.envs, i, st.winners[k].customer, st.winners[k].event);
    }
  }

  /** A decision that records somebody without card 1 or eight others. */
  predicate Premature(st: State, op: Op)
    requires Enabled(st, op)
  {
    op.OpDecide? && Records(st, op.i) && !Complete(st.envs, st.envs[op.i].customer, st.envs[op.i].event)
  }

  /** Each operation keeps the winners complete exactly when it is no premature decision. */
  lemma StepWinnersIff(st: State, op: Op)
    requires AllTidy(st.envs) && WinnersHoldAll(st) && Enabled(st, op)
    ensures WinnersHoldAll(Apply(st, op)) <==> !Premature(st, op)
  {
    match op
    case OpActivate(app, draw) => ActivateKeepsWinners(st, app, draw);
    case OpOpen(i) => OpenKeepsWinners(st, i);
    case OpDecide(i) =>
      var c, e := st.envs[i].customer, st.envs[i].event;
      assert TidyAt(st.envs, c, e);
      OpenIsTidy(st.envs, c, e);
      TidyHoldsAllIff(OpenHand(st.envs, c, e));
      if Records(st, i) {
        assert Decide(st, i).winners[|st.winners|] == Winner(c, e);
      }
  }

  /** The winners hold all nine cards at the start and after each operation. */
  predicate HoldAllThroughout(st: State, ops: seq<Op>)
    requires IsRun(st, ops)
    decreases |ops|
  {
    WinnersHoldAll(st) && (ops == [] || HoldAllThroughout(Apply(st, ops[0]), ops[1..]))
  }

  predicate NonePremature(st: State, ops: seq<Op>)
    requires IsRun(st, ops)
    decreases |ops|
  {
    ops == [] || (!Premature(st, ops[0]) && NonePremature(Apply(st, ops[0]), ops[1..]))
  }

  /** Over a run the winners hold all nine cards throughout exactly when no decision is premature. */
  lemma {:induction false} RunWinnersIff(st: State, ops: seq<Op>)
    requires AllTidy(st.envs) && WinnersHoldAll(st) && IsRun(st, ops)
    ensures HoldAllThroughout(st, ops) <==> NonePremature(st, ops)
    decreases |ops|
  {
    if ops != [] {
      StepWinnersIff(st, ops[0]);
      StepTidy(st, ops[0]);
      if !Premature(st, ops[0]) {
        RunWinnersIff(Apply(st, ops[0]), ops[1..]);
      }
    }
  }

  // ---- Runs of one event in order ----

  /** Whoever invites has been activated before. */
  predicate Ordered(st: State, ops: seq<Op>)
    requires IsRun(st, ops)
    decreases |ops|
  {
    ops == []
    || ((ops[0].OpActivate? ==> InOrder(st, ops[0].app)) && Ordered(Apply(st, ops[0]), ops[1..]))
  }

  /** No draw of the run raises. */
  predicate NoneRaises(st: State, ops: seq<Op>)
    requires IsRun(st, ops)
    decreases |ops|
  {
    ops == []
    || ((ops[0].OpActivate? ==> Invite(st.envs, ops[0].app, ops[0].draw).Some?)
        && NoneRaises(Apply(st, ops[0]), ops[1..]))
  }

  predicate OfEvent(ops: seq<Op>, e: int) {
    forall i :: 0 <= i < |ops| && ops[i].OpActivate? ==> ops[i].app.event == e
  }

  ghost predicate Invariant(st: State, e: int) {
    NoDoubles(st.envs) && OwnFirst(st.envs) && OneEvent(st.envs, e) && WinnersHoldAll(st)
  }

  lemma OpenKeepsInvariant(st: State, i: nat, e: int)
    requires Invariant(st, e) && i < |st.envs|
    ensures Invariant(Open(st, i), e)
  {
    var after := Open(st, i).envs;
    forall c, f
      ensures Hand(after, c, f) == Hand(st.envs, c, f)
      ensures forall v :: v in OpenHand(st.envs, c, f) ==> v in OpenHand(after, c, f)
    {
      OpenKeeps(st.envs, i, c, f);
    }
    forall key | HasKey(st.envs, key)
      ensures HasKey(after, key)
    {
      var k :| 0 <= k < |st.envs| && st.envs[k].key == key;
      assert after[k].key == key;
    }
    OpenKeepsWinners(st, i);
  }

  lemma DecideKeeps(st: State, i: nat, e: int)
    requires Invariant(st, e) && i < |st.envs| && IsOpenCard(st.envs[i])
    ensures Invariant(Decide(st, i), e)
  {
    if Decide(st, i) != st {
      var c := st.envs[i].customer;
      assert Proper(Hand(st.envs, c, e));
      OpenIsProper(st.envs, c, e);
      NineAreAll(OpenHand(st.envs, c, e));
      CountIsMore(st.envs, c, e);
    }
  }

  /** In every run of one event in which each inviter has been activated before, no hand has doubles, no
      draw raises, and every recorded winner holds all nine cards and is recorded once. */
  lemma {:induction false} RunKeepsInvariant(st: State, ops: seq<Op>, e: int)
    requires Invariant(st, e) && IsRun(st, ops) && OfEvent(ops, e) && Ordered(st, ops)
    ensures Invariant(End(st, ops), e) && NoneRaises(st, ops)
    decreases |ops|
  {
    if ops != [] {
      match ops[0] {
        case OpActivate(app, draw) =>
          assert ops[0].app.event == e;
          ActivateInOrder(st, app, draw);
          ActivateKeepsWinners(st, app, draw);
          ActivateGrows(st, app, draw);
        case OpOpen(i) => OpenKeepsInvariant(st, i, e);
        case OpDecide(i) => DecideKeeps(st, i, e);
      }
      assert forall i :: 0 <= i < |ops[1..]| ==> ops[1..][i] == ops[i + 1];
      RunKeepsInvariant(Apply(st, ops[0]), ops[1..], e);
    }
  }

  // ---- Once there are doubles ----

  lemma {:induction false} HandGrows(envs: seq<Envelope>, more: seq<Envelope>, c: int, e: int)
    requires !Proper(Hand(envs, c, e))
    ensures !Proper(Hand(envs + more, c, e))
  {
    if more == [] {
      assert envs + more == envs;
    } else {
      var n := |more| - 1;
      HandGrows(envs, more[..n], c, e);
      assert envs + more == (envs + more[..n]) + [more[n]];
      HandSnoc(envs + more[..n], more[n], c, e);
      ProperSnoc(Hand(envs + more[..n], c, e), more[n].value);
    }
  }

  lemma DoublesStayOnce(st: State, op: Op, c: int, e: int)
    requires Enabled(st, op) && !Proper(Hand(st.envs, c, e))
    ensures !Proper(Hand(Apply(st, op).envs, c, e))
  {
    match op
    case OpActivate(app, draw) =>
      ActivateGrows(st, app, draw);
      var after := Activate(st, app, draw).envs;
      assert after == st.envs + after[|st.envs|..];
      HandGrows(st.envs, after[|st.envs|..], c, e);
    case OpOpen(i) => OpenKeeps(st.envs, i, c, e);
    case OpDecide(_) =>
  }

  /** A hand with doubles never becomes proper again, whatever happens: from then on, every card drawn
      for a new friend of that customer raises. */
  lemma {:induction false} DoublesStay(st: State, ops: seq<Op>, app: Application, draw: Draw)
    requires IsRun(st, ops) && !Proper(Hand(st.envs, app.from, app.event)) && app.from != 0
    ensures var envs := End(st, ops).envs;
      && !Proper(Hand(envs, app.from, app.event))
      && (Invite(envs, app, draw).None?
          <==> !HasKey(envs, Friend(app.event, app.customer))
               && draw.card && |Hand(envs, app.from, app.event)| < 9)
    decreases |ops|
  {
    if ops == [] {
      GenPairSpec(Hand(st.envs, app.from, app.event), draw);
    } else {
      DoublesStayOnce(st, ops[0], app.from, app.event);
      DoublesStay(Apply(st, ops[0]), ops[1..], app, draw);
    }
  }

  /** It does happen: a customer invites before the own activation, draws card 1, and is then given it
      again; the next card drawn for a friend raises. */
  lemma InvitedFirst(e: int, a: int, b: int, c: int, first: Draw, second: Draw, third: Draw)
    requires a != 0 && a != b && c != a && c != b
    requires first.card && first.pick % 9 == 0 && third.card
    ensures var ops := [OpActivate(Application(e, b, a), first), OpActivate(Application(e, a, 0), second)];
      && IsRun(State([], []), ops)
      && Hand(End(State([], []), ops).envs, a, e) == [1, 1]
      && Invite(End(State([], []), ops).envs, Application(e, c, a), third).None?
  {
    var x, y, z := Envelope(a, e, Friend(e, b), Card, 1, false), Envelope(b, e, Own(e, b), Card, 1, false),
      Envelope(a, e, Own(e, a), Card, 1, false);
    var one := Activate(State([], []), Application(e, b, a), first);
    FirstInvitation(e, a, b, first);
    assert one.envs == [x, y];
    HandOfThree(x, y, z);
    assert !HasKey([x, y], Own(e, a));
    var two := Activate(one, Application(e, a, 0), second);
    assert two.envs == [x, y, z];
    var ops := [OpActivate(Application(e, b, a), first), OpActivate(Application(e, a, 0), second)];
    assert ops[1..] == [ops[1]] && [ops[1]][1..] == [];
    assert End(one, [ops[1]]) == End(two, []) == two;
    assert !Proper([1, 1]) by {
      assert [1, 1][0] == [1, 1][1];
    }
    assert !HasKey([x, y, z], Friend(e, c));
    GenPairSpec([1, 1], third);
  }

  lemma HandOfThree(x: Envelope, y: Envelope, z: Envelope)
    requires IsCard(x, x.customer, x.event) && IsCard(z, x.customer, x.event) && y.customer != x.customer
    ensures Hand([x, y, z], x.customer, x.event) == [x.value, z.value]
  {
    HandLast([x, y, z], x.customer, x.event);
    HandLast([x, y], x.customer, x.event);
    HandLast([x], x.customer, x.event);
    assert [x, y, z][..2] == [x, y] && [x, y][..1] == [x] && [x][..0] == [];
  }

  lemma HandLast(envs: seq<Envelope>, c: int, e: int)
    requires envs != []
    ensures var last := envs[|envs| - 1];
      Hand(envs, c, e) == Hand(envs[..|envs| - 1], c, e) + if IsCard(last, c, e) then [last.value] else []
  {
  }

  lemma FirstInvitation(e: int, a: int, b: int, draw: Draw)
    requires a != 0 && a != b && draw.card && draw.pick % 9 == 0
    ensures Activate(State([], []), Application(e, b, a), draw).envs
      == [Envelope(a, e, Friend(e, b), Card, 1, false), Envelope(b, e, Own(e, b), Card, 1, false)]
  {
    assert Left([]) == Some(SLOTS) && |SLOTS| == 9;
    assert GenPair([], draw) == Some(Prize(Card, 1));
    var x := Envelope(a, e, Friend(e, b), Card, 1, false);
    assert [] + [x] == [x];
    assert !HasKey([x], Own(e, b));
  }

  // ---- Winners who lack cards ----

  /** Customer `a` invites friend after friend, draws the lowest missing card each time and opens it;
      `n` envelopes were there before. */
  function Story(n: nat, e: int, a: int, k: nat): seq<Op> {
    if k == 0 then [] else Story(n, e, a, k - 1) + Chapter(n, e, a, k)
  }

  function Chapter(n: nat, e: int, a: int, k: nat): seq<Op>
    requires k > 0
  {
    [OpActivate(Application(e, a + k, a), Draw(true, 0, 0)), OpOpen(n + 2 * (k - 1))]
  }

  /** What comes of it: an opened card for `a` and a welcome for each friend. */
  function Invited(e: int, a: int, k: nat): (r: seq<Envelope>)
    ensures |r| == 2 * k
    ensures forall i :: 0 <= i < |r| ==> r[i].event == r[i].key.event == e && a < r[i].key.customer <= a + k
  {
    if k == 0 then [] else Invited(e, a, k - 1) + [ForInviter(e, a, k, true)] + [ForFriend(e, a, k)]
  }

  function ForInviter(e: int, a: int, k: nat, shown: bool): Envelope {
    Envelope(a, e, Friend(e, a + k), Card, k, shown)
  }

  function ForFriend(e: int, a: int, k: nat): Envelope {
    Envelope(a + k, e, Own(e, a + k), Card, 1, false)
  }

  function UpTo(k: nat): (r: seq<int>)
    ensures |r| == k && forall i :: 0 <= i < k ==> r[i] == i + 1
  {
    seq(k, i requires 0 <= i < k => i + 1)
  }

  lemma {:induction false} LeftUpTo(k: nat)
    requires k <= 9
    ensures Left(UpTo(k)) == Some(SLOTS[k..])
  {
    if k > 0 {
      LeftUpTo(k - 1);
      assert UpTo(k)[..k - 1] == UpTo(k - 1);
      assert SLOTS[k - 1..][0] == k && SLOTS[k - 1..][1..] == SLOTS[k..];
    }
  }

  lemma OpenSnoc(envs: seq<Envelope>, env: Envelope, c: int, e: int)
    ensures OpenHand(envs + [env], c, e)
         == OpenHand(envs, c, e) + if IsCard(env, c, e) && env.open then [env.value] else []
    ensures OpenCount(envs + [env], c)
         == OpenCount(envs, c) + if env.customer == c && env.kind == Card && env.open then 1 else 0
  {
    assert (envs + [env])[..|envs|] == envs;
  }

  lemma {:induction false} InvitedElsewhere(envs: seq<Envelope>, e: int, a: int, k: nat, c: int, f: int)
    ensures var all := envs + Invited(e, a, k);
      && OpenCount(all, a) == OpenCount(envs, a) + k
      && (f != e ==> Hand(all, c, f) == Hand(envs, c, f) && OpenHand(all, c, f) == OpenHand(envs, c, f))
  {
    if k == 0 {
      assert envs + Invited(e, a, 0) == envs;
    } else {
      InvitedElsewhere(envs, e, a, k - 1, c, f);
      NextPair(envs, e, a, k, c, f);
    }
  }

  /** The hands that the invitations leave in their event: the inviter's, */
  lemma {:induction false} InviterHand(envs: seq<Envelope>, e: int, a: int, k: nat)
    requires Hand(envs, a, e) == OpenHand(envs, a, e) == []
    ensures Hand(envs + Invited(e, a, k), a, e) == OpenHand(envs + Invited(e, a, k), a, e) == UpTo(k)
  {
    if k == 0 {
      assert envs + Invited(e, a, 0) == envs;
    } else {
      InviterHand(envs, e, a, k - 1);
      NextPair(envs, e, a, k, a, e);
      assert UpTo(k) == UpTo(k - 1) + [k];
    }
  }

  /** and those of the friends. */
  lemma {:induction false} FriendHand(envs: seq<Envelope>, e: int, a: int, k: nat, c: int)
    requires Hand(envs, c, e) == [] && c != a
    ensures Hand(envs + Invited(e, a, k), c, e) == if a < c <= a + k then [1] else []
  {
    if k == 0 {
      assert envs + Invited(e, a, 0) == envs;
    } else {
      FriendHand(envs, e, a, k - 1, c);
      NextPair(envs, e, a, k, c, e);
      if c == a + k {
        assert [] + [1] == [1];
      }
    }
  }

  lemma LastPair(envs: seq<Envelope>, e: int, a: int, k: nat)
    requires k > 0
    ensures envs + Invited(e, a, k)
         == envs + Invited(e, a, k - 1) + [ForInviter(e, a, k, true)] + [ForFriend(e, a, k)]
  {
    Regroup(envs, Invited(e, a, k - 1), [ForInviter(e, a, k, true)]);
    Regroup(envs, Invited(e, a, k - 1) + [ForInviter(e, a, k, true)], [ForFriend(e, a, k)]);
  }

  lemma NextPair(envs: seq<Envelope>, e: int, a: int, k: nat, c: int, f: int)
    requires k > 0
    ensures var less, all := envs + Invited(e, a, k - 1), envs + Invited(e, a, k);
      && OpenCount(all, a) == OpenCount(less, a) + 1
      && Hand(all, c, f)
         == (if f == e && c == a then Hand(less, c, f) + [k]
             else if f == e && c == a + k then Hand(less, c, f) + [1] else Hand(less, c, f))
      && OpenHand(all, c, f) == OpenHand(less, c, f) + if f == e && c == a then [k] else []
  {
    LastPair(envs, e, a, k);
    OneMorePair(envs + Invited(e, a, k - 1), e, a, k, c, f);
  }

  lemma OneMorePair(less: seq<Envelope>, e: int, a: int, k: nat, c: int, f: int)
    requires k > 0
    ensures var all := less + [ForInviter(e, a, k, true)] + [ForFriend(e, a, k)];
      && OpenCount(all, a) == OpenCount(less, a) + 1
      && Hand(all, c, f)
         == (if f == e && c == a then Hand(less, c, f) + [k]
             else if f == e && c == a + k then Hand(less, c, f) + [1] else Hand(less, c, f))
      && OpenHand(all, c, f) == OpenHand(less, c, f) + if f == e && c == a then [k] else []
  {
    var x, y := ForInviter(e, a, k, true), ForFriend(e, a, k);
    HandSnoc(less, x, c, f);
    HandSnoc(less + [x], y, c, f);
    OpenSnoc(less, x, c, f);
    OpenSnoc(less + [x], y, c, f);
    OpenSnoc(less, x, a, f);
    OpenSnoc(less + [x], y, a, f);
  }

  /** Nothing of the event is there. */
  predicate Fresh(envs: seq<Envelope>, e: int) {
    forall i :: 0 <= i < |envs| ==> envs[i].event != e && envs[i].key.event != e
  }

  lemma {:induction false} FreshIsEmpty(envs: seq<Envelope>, c: int, e: int)
    requires Fresh(envs, e)
    ensures Hand(envs, c, e) == OpenHand(envs, c, e) == []
  {
    if envs != [] {
      FreshIsEmpty(envs[..|envs| - 1], c, e);
    }
  }

  lemma {:induction false} RunAppend(st: State, a: seq<Op>, b: seq<Op>)
    requires IsRun(st, a) && IsRun(End(st, a), b)
    ensures IsRun(st, a + b) && End(st, a + b) == End(End(st, a), b)
    decreases |a|
  {
    if a == [] {
      assert a + b == b;
    } else {
      var next, all := Apply(st, a[0]), a + b;
      assert all[1..] == a[1..] + b && all[0] == a[0];
      RunAppend(next, a[1..], b);
      assert IsRun(next, all[1..]) && End(next, all[1..]) == End(End(st, a), b);
    }
  }

  lemma RunTwo(st: State, x: Op, y: Op)
    requires Enabled(st, x) && Enabled(Apply(st, x), y)
    ensures IsRun(st, [x, y]) && End(st, [x, y]) == Apply(Apply(st, x), y)
  {
    var two := Apply(Apply(st, x), y);
    assert [x, y][1..] == [y] && [y][1..] == [];
    assert IsRun(two, []) && End(two, []) == two;
    assert IsRun(Apply(st, x), [y]) && End(Apply(st, x), [y]) == two;
  }

  lemma DecideLast(st: State, ops: seq<Op>, i: nat)
    requires IsRun(st, ops) && i < |End(st, ops).envs| && IsOpenCard(End(st, ops).envs[i])
    ensures IsRun(st, ops + [OpDecide(i)]) && End(st, ops + [OpDecide(i)]) == Decide(End(st, ops), i)
  {
    var end := End(st, ops);
    assert [OpDecide(i)][1..] == [] && IsRun(Decide(end, i), []);
    assert IsRun(end, [OpDecide(i)]) && End(end, [OpDecide(i)]) == Decide(end, i);
    RunAppend(st, ops, [OpDecide(i)]);
  }

  lemma LowestIsDrawn(k: nat)
    requires 1 <= k <= 9
    ensures GenPair(UpTo(k - 1), Draw(true, 0, 0)) == Some(Prize(Card, k))
  {
    LeftUpTo(k - 1);
  }

  lemma FriendIsInvited(st: State, e: int, a: int, k: nat)
    requires a != 0 && 1 <= k <= 9 && Hand(st.envs, a, e) == UpTo(k - 1)
    requires !HasKey(st.envs, Friend(e, a + k)) && !HasKey(st.envs, Own(e, a + k))
    ensures Activate(st, Application(e, a + k, a), Draw(true, 0, 0))
         == State(st.envs + [ForInviter(e, a, k, false)] + [ForFriend(e, a, k)], st.winners)
  {
    LowestIsDrawn(k);
    HandSnoc(st.envs, ForInviter(e, a, k, false), a, e);
  }

  lemma OneFriend(envs: seq<Envelope>, winners: seq<Winner>, e: int, a: int, k: nat)
    requires Fresh(envs, e) && a != 0 && 1 <= k <= 9
    ensures var st := State(envs + Invited(e, a, k - 1), winners);
      && IsRun(st, Chapter(|envs|, e, a, k))
      && End(st, Chapter(|envs|, e, a, k)) == State(envs + Invited(e, a, k), winners)
  {
    var less := envs + Invited(e, a, k - 1);
    var st, ops := State(less, winners), Chapter(|envs|, e, a, k);
    FreshIsEmpty(envs, a, e);
    InviterHand(envs, e, a, k - 1);
    FriendIsInvited(st, e, a, k);
    PairIsOpened(less, winners, e, a, k);
    LastPair(envs, e, a, k);
    RunTwo(st, ops[0], ops[1]);
  }

  lemma PairIsOpened(less: seq<Envelope>, winners: seq<Winner>, e: int, a: int, k: nat)
    requires k > 0
    ensures Open(State(less + [ForInviter(e, a, k, false)] + [ForFriend(e, a, k)], winners), |less|)
         == State(less + [ForInviter(e, a, k, true)] + [ForFriend(e, a, k)], winners)
  {
  }

  lemma {:induction false} StoryRuns(st: State, e: int, a: int, k: nat)
    requires Fresh(st.envs, e) && a != 0 && k <= 9
    ensures IsRun(st, Story(|st.envs|, e, a, k))
    ensures End(st, Story(|st.envs|, e, a, k)) == State(st.envs + Invited(e, a, k), st.winners)
  {
    if k == 0 {
      assert st.envs + Invited(e, a, 0) == st.envs;
    } else {
      var front, last := Story(|st.envs|, e, a, k - 1), Chapter(|st.envs|, e, a, k);
      assert Story(|st.envs|, e, a, k) == front + last;
      StoryRuns(st, e, a, k - 1);
      OneFriend(st.envs, st.winners, e, a, k);
      RunAppend(st, front, last);
    }
  }

  /** With `m` cards of one event and `n` of another, nine together, the customer is recorded as the winner
      of the second with `n` of its cards; no hand has doubles. */
  lemma TwoEventsMakeWinner(e: int, f: int, a: int, m: nat, n: nat)
    requires a != 0 && e != f && m <= 9 && 1 <= n < 9 <= m + n
    ensures var ops := Story(0, e, a, m) + Story(2 * m, f, a, n) + [OpDecide(2 * (m + n - 1))];
      && IsRun(START, ops)
      && End(START, ops).winners == [Winner(a, f)]
      && NoDoubles(End(START, ops).envs)
      && OpenHand(End(START, ops).envs, a, e) == UpTo(m)
      && OpenHand(End(START, ops).envs, a, f) == UpTo(n)
      && !HoldsAll(OpenHand(End(START, ops).envs, a, f))
  {
    var end := State(Invited(e, a, m) + Invited(f, a, n), []);
    var i := 2 * (m + n - 1);
    TwoStories(e, f, a, m, n);
    TwoEvents(e, f, a, m, n);
    assert end.envs[i] == ForInviter(f, a, n, true);
    assert [] + [Winner(a, f)] == [Winner(a, f)];
    DecideLast(START, Story(0, e, a, m) + Story(2 * m, f, a, n), i);
    assert 9 !in UpTo(n);
  }

  lemma TwoStories(e: int, f: int, a: int, m: nat, n: nat)
    requires a != 0 && e != f && m <= 9 && n <= 9
    ensures var ops := Story(0, e, a, m) + Story(2 * m, f, a, n);
      IsRun(START, ops) && End(START, ops) == State(Invited(e, a, m) + Invited(f, a, n), [])
  {
    var one := State(Invited(e, a, m), []);
    OneStory(e, a, m);
    StoryRuns(one, f, a, n);
    RunAppend(START, Story(0, e, a, m), Story(2 * m, f, a, n));
  }

  lemma OneStory(e: int, a: int, k: nat)
    requires a != 0 && k <= 9
    ensures IsRun(START, Story(0, e, a, k)) && End(START, Story(0, e, a, k)) == State(Invited(e, a, k), [])
    ensures Hand(Invited(e, a, k), a, e) == OpenHand(Invited(e, a, k), a, e) == UpTo(k)
    ensures OpenCount(Invited(e, a, k), a) == k
  {
    assert [] + Invited(e, a, k) == Invited(e, a, k);
    StoryRuns(START, e, a, k);
    InviterHand([], e, a, k);
    InvitedElsewhere([], e, a, k, a, e);
  }

  lemma TwoEvents(e: int, f: int, a: int, m: nat, n: nat)
    requires a != 0 && e != f && m <= 9 && n <= 9
    ensures var envs := Invited(e, a, m) + Invited(f, a, n);
      && NoDoubles(envs)
      && OpenCount(envs, a) == m + n
      && OpenHand(envs, a, e) == UpTo(m)
      && OpenHand(envs, a, f) == UpTo(n)
  {
    var one := Invited(e, a, m);
    OneStory(e, a, m);
    forall c, g
      ensures Proper(Hand(one + Invited(f, a, n), c, g))
    {
      HandsOfTwo(e, f, a, m, n, c, g);
    }
    InvitedElsewhere(one, f, a, n, a, e);
    FreshIsEmpty(one, a, f);
    InviterHand(one, f, a, n);
  }

  lemma HandsOfTwo(e: int, f: int, a: int, m: nat, n: nat, c: int, g: int)
    requires e != f && m <= 9 && n <= 9
    ensures Proper(Hand(Invited(e, a, m) + Invited(f, a, n), c, g))
  {
    var one := Invited(e, a, m);
    HandOfOne([], e, a, m, c, g);
    assert [] + one == one;
    if g == f {
      FreshIsEmpty(one, c, f);
    }
    HandOfOne(one, f, a, n, c, g);
  }

  lemma HandOfOne(envs: seq<Envelope>, e: int, a: int, k: nat, c: int, g: int)
    requires k <= 9 && if g == e then Hand(envs, c, e) == OpenHand(envs, c, e) == [] else Proper(Hand(envs, c, g))
    ensures Proper(Hand(envs + Invited(e, a, k), c, g))
  {
    if g != e {
      InvitedElsewhere(envs, e, a, k, c, g);
    } else if c == a {
      InviterHand(envs, e, a, k);
    } else {
      FriendHand(envs, e, a, k, c);
    }
  }

  /** One event is enough: a customer who invites eight friends before the own activation draws cards 1 to
      8, is given card 1 again, and is recorded without card 9. */
  lemma OneEventWinner(e: int, a: int, draw: Draw)
    requires a != 0
    ensures var ops := Story(0, e, a, 8) + [OpActivate(Application(e, a, 0), draw), OpOpen(16)] + [OpDecide(16)];
      && IsRun(START, ops)
      && OneEvent(End(START, ops).envs, e)
      && End(START, ops).winners == [Winner(a, e)]
      && OpenHand(End(START, ops).envs, a, e) == UpTo(8) + [1]
      && !HoldsAll(OpenHand(End(START, ops).envs, a, e))
  {
    var one := State(Invited(e, a, 8), []);
    var own := Envelope(a, e, Own(e, a), Card, 1, false);
    var ops := [OpActivate(Application(e, a, 0), draw), OpOpen(16)];
    OneStory(e, a, 8);
    assert !HasKey(one.envs, Own(e, a));
    assert Apply(one, ops[0]) == State(one.envs + [own], []);
    var two := State(one.envs + [own.(open := true)], []);
    assert Apply(Apply(one, ops[0]), ops[1]) == two;
    RunTwo(one, ops[0], ops[1]);
    RunAppend(START, Story(0, e, a, 8), ops);
    OpenSnoc(one.envs, own.(open := true), a, e);
    assert [] + [Winner(a, e)] == [Winner(a, e)];
    DecideLast(START, Story(0, e, a, 8) + ops, 16);
    assert 9 !in UpTo(8) + [1];
  }

  // ---- The tables, updated in place ----

  /** The removing loop and the draws of `gen_envelope_type_value_pair`. */
  method GenEnvelopeTypeValuePair(records: seq<int>, draw: Draw) returns (p: Option<Prize>)
    ensures p == GenPair(records, draw)
    ensures p.Some? && p.value.kind == Card ==> Proper(records + [p.value.value])
  {
    GenPairSpec(records, draw);
    LeftSpec(records);
    if |records| >= 9 {
      return Some(Prize(Cash, CASH_VALUES[draw.cash % 16]));
    }
    if !draw.card {
      return Some(Prize(Cash, CASH_VALUES[draw.cash % 16]));
    }
    var slots := SLOTS;
    assert records[..0] == [];
    for i := 0 to |records|
      invariant Left(records[..i]) == Some(slots)
    {
      assert records[..i + 1][..i] == records[..i];
      if records[i] !in slots {
        LeftSpec(records[..i + 1]);
        LeftFails(records, i + 1);
        return None;
      }
      slots := Remove(slots, records[i]);
    }
    assert records[..|records|] == records;
    p := Some(Prize(Card, slots[draw.pick % |slots|]));
  }

  /** A failed removal stays failed. */
  lemma LeftFails(records: seq<int>, n: nat)
    requires n <= |records| && Left(records[..n]).None?
    ensures Left(records).None?
  {
    LeftSpec(records);
    LeftSpec(records[..n]);
  }

  class EnvelopeTables {
    var envs: seq<Envelope>
    var winners: seq<Winner>

    function Now(): State
      reads this
    {
      State(envs, winners)
    }

    method GenerateRedEnvelope(app: Application, draw: Draw) returns (raised: bool)
      modifies this`envs
      ensures Now() == Activate(old(Now()), app, draw)
      ensures raised <==> Invite(old(envs), app, draw).None?
    {
      var key := Friend(app.event, app.customer);
      if app.from != 0 {
        if !HasKey(envs, key) {
          var p := GenEnvelopeTypeValuePair(Hand(envs, app.from, app.event), draw);
          if p.None? {
            return true;
          }
          envs := envs + [Envelope(app.from, app.event, key, p.value.kind, p.value.value, false)];
        }
      }
      var own := Own(app.event, app.customer);
      if !HasKey(envs, own) {
        envs := envs + [Envelope(app.customer, app.event, own, Card, 1, false)];
      }
      raised := false;
    }

    method OpenEnvelope(i: nat)
      requires i < |envs|
      modifies this`envs
      ensures Now() == Open(old(Now()), i)
    {
      envs := envs[i := envs[i].(open := true)];
    }

    method DecideAwardWinner(i: nat)
      requires i < |envs| && IsOpenCard(envs[i])
      modifies this`winners
      ensures Now() == Decide(old(Now()), i)
    {
      if OpenCount(envs, envs[i].customer) < 9 {
        return;
      }
      var w := Winner(envs[i].customer, envs[i].event);
      if w in winners {
        return;
      }
      winners := winners + [w];
    }
  }
}
