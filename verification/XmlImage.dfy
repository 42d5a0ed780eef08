/** Two facts that make the round trip mean what it says: putting a value in canonical order does not
    change it as a plain dictionary, and the normal forms are exactly what parsing produces. */
module XmlImage {
  import opened PyText
  import opened XmlHandler
  import opened XmlTree
  import opened XmlEmit
  import opened XmlRoundTrip

  // ---- Equality of plain dictionaries ----

  /** Equality up to the order of the keys of each dictionary. */
  predicate SameValue(v: Value, w: Value)
    decreases v
  {
    match v
    case Dict(items) =>
      && w.Dict? && |items| == |w.items|
      && forall i :: 0 <= i < |items| ==>
           exists j :: 0 <= j < |w.items| && w.items[j].key == items[i].key
                    && SameValue(items[i].val, w.items[j].val)
    case List(vals) =>
      w.List? && |vals| == |w.vals| && forall i :: 0 <= i < |vals| ==> SameValue(vals[i], w.vals[i])
    case _ => v == w
  }

  /** Each entry falls into exactly one of the three groups. */
  lemma {:induction false} GroupSizes(items: seq<Entry>)
    requires DistinctKeys(items)
    requires forall i :: 0 <= i < |items| ==> NormalEntry(items[i])
    ensures |AttrsOf(items)| + |CanonKids(items)| + |TextItems(CdataOf(items))| == |items|
  {
    if items != [] {
      var front, last := items[..|items| - 1], items[|items| - 1];
      GroupSizes(front);
      assert front + [last] == items;
      CanonKidsAppend(front, [last]);
      assert NormalEntry(last) && [last][1..] == [];
      if last.key == CDATA_KEY {
        assert !HasKey(front, CDATA_KEY);
        CdataMissing(front);
      }
    }
  }

  lemma {:induction false} AttrEntryKept(items: seq<Entry>, i: nat)
    requires i < |items| && IsAttrKey(items[i].key) && items[i].val.Text?
    ensures items[i] in AttrItems(AttrsOf(items))
  {
    var front, last := items[..|items| - 1], items[|items| - 1];
    var attrs := AttrsOf(items);
    if i < |items| - 1 {
      AttrEntryKept(front, i);
      var k :| 0 <= k < |AttrsOf(front)| && AttrItems(AttrsOf(front))[k] == items[i];
      assert AttrItems(attrs)[k] == items[i];
    } else {
      assert "@" + last.key[1..] == last.key;
      assert AttrItems(attrs)[|attrs| - 1] == last;
    }
  }

  lemma {:induction false} ChildEntryKept(items: seq<Entry>, i: nat)
    requires i < |items| && IsChildKey(items[i].key)
    ensures Entry(items[i].key, Canon(items[i].val)) in CanonKids(items)
  {
    if i > 0 {
      ChildEntryKept(items[1..], i - 1);
    }
  }

  lemma {:induction false} TextEntryKept(items: seq<Entry>, i: nat)
    requires i < |items| && DistinctKeys(items) && items[i].key == CDATA_KEY && items[i].val.Text?
    ensures CdataOf(items) == Some(items[i].val.text)
  {
    if i < |items| - 1 {
      TextEntryKept(items[..|items| - 1], i);
    }
  }

  /** The canonical order is only an order. */
  lemma {:induction false} CanonIsSameValue(v: Value)
    requires NormalChild(v)
    ensures SameValue(v, Canon(v))
    decreases v
  {
    if v.List? {
      CanonAllAt(v.vals);
      forall i | 0 <= i < |v.vals|
        ensures SameValue(v.vals[i], CanonAll(v.vals)[i])
      {
        assert NormalOne(v.vals[i]);
        CanonIsSameValue(v.vals[i]);
      }
    } else if v.Dict? {
      var items, w := v.items, Canon(v).items;
      GroupSizes(items);
      forall i | 0 <= i < |items|
        ensures exists j :: 0 <= j < |w| && w[j].key == items[i].key && SameValue(items[i].val, w[j].val)
      {
        var e := EntryKept(v, i);
        if IsChildKey(items[i].key) {
          CanonIsSameValue(items[i].val);
        }
        var j :| 0 <= j < |w| && w[j] == e;
      }
    }
  }

  lemma EntryKept(v: Value, i: nat) returns (e: Entry)
    requires NormalOne(v) && v.Dict? && i < |v.items|
    ensures NormalEntry(v.items[i])
    ensures e in Canon(v).items && e.key == v.items[i].key
    ensures e.val == if IsChildKey(e.key) then Canon(v.items[i].val) else v.items[i].val
    ensures !IsChildKey(e.key) ==> e.val.Text?
  {
    var items := v.items;
    var a, b, c := AttrItems(AttrsOf(items)), CanonKids(items), TextItems(CdataOf(items));
    assert NormalEntry(items[i]);
    if IsChildKey(items[i].key) {
      ChildEntryKept(items, i);
      e := Entry(items[i].key, Canon(items[i].val));
      assert e in b;
    } else if IsAttrKey(items[i].key) {
      AttrEntryKept(items, i);
      e := items[i];
      assert e in a;
    } else {
      TextEntryKept(items, i);
      e := items[i];
      assert c[0] == e;
    }
    assert e in a + b + c;
  }

  // ---- The image of the parser ----

  lemma {:induction false} AttrsAreKeys(items: seq<Entry>)
    ensures forall k :: 0 <= k < |AttrsOf(items)| ==> HasKey(items, "@" + AttrsOf(items)[k].name)
  {
    if items != [] {
      var front, last := items[..|items| - 1], items[|items| - 1];
      AttrsAreKeys(front);
      assert forall k :: HasKey(front, k) ==> HasKey(items, k);
      if IsAttrKey(last.key) {
        assert "@" + last.key[1..] == last.key && HasKey(items, last.key);
      }
    }
  }

  lemma {:induction false} AttrsAreDistinct(items: seq<Entry>)
    requires DistinctKeys(items)
    ensures DistinctAttrs(AttrsOf(items))
  {
    if items != [] {
      var front, last := items[..|items| - 1], items[|items| - 1];
      AttrsAreDistinct(front);
      AttrsAreKeys(front);
      if IsAttrKey(last.key) {
        assert "@" + last.key[1..] == last.key && !HasKey(front, last.key);
      }
    }
  }

  /** What the printer prints for a normal value is a valid element. */
  lemma {:induction false} PrintedIsValid(key: string, v: Value, depth: nat)
    requires NormalOne(v) && IsChildKey(key)
    ensures ValidNode(PrintedElem(key, v, depth, Plain))
    decreases v, 1
  {
    if v.Dict? {
      AttrsAreDistinct(v.items);
      PrintedKidsAreValid(v.items, depth + 1);
    } else if v.Text? {
      SortText(v.text);
    }
  }

  lemma {:induction false} PrintedKidsAreValid(items: seq<Entry>, depth: nat)
    requires forall i :: 0 <= i < |items| ==> NormalEntry(items[i])
    ensures forall k :: 0 <= k < |EmitKids(items, depth, Plain)| ==> ValidNode(EmitKids(items, depth, Plain)[k])
    decreases items, 0
  {
    if items != [] {
      var e := items[0];
      assert NormalEntry(e);
      var first := [];
      if IsChildKey(e.key) {
        assert NormalChild(e.val);
        if e.val.List? {
          PrintedListIsValid(e.key, e.val.vals, depth);
          first := EmitList(e.key, e.val.vals, depth, Plain);
        } else {
          PrintedIsValid(e.key, e.val, depth);
          first := [PrintedElem(e.key, e.val, depth, Plain)];
          assert EmitKey(e.key, e.val, depth, Plain) == first;
        }
      }
      PrintedKidsAreValid(items[1..], depth);
      assert EmitKids(items, depth, Plain) == first + EmitKids(items[1..], depth, Plain);
    }
  }

  lemma {:induction false} PrintedListIsValid(key: string, vals: seq<Value>, depth: nat)
    requires forall i :: 0 <= i < |vals| ==> NormalOne(vals[i])
    requires IsChildKey(key)
    ensures forall k :: 0 <= k < |EmitList(key, vals, depth, Plain)| ==> ValidNode(EmitList(key, vals, depth, Plain)[k])
    decreases vals, 0
  {
    if vals != [] {
      PrintedIsValid(key, vals[0], depth);
      PrintedListIsValid(key, vals[1..], depth);
    }
  }

  /** A value is the value of some valid element exactly when it is normal and in canonical order. */
  lemma ImageOfParse(key: string, v: Value)
    requires IsChildKey(key)
    ensures (exists n: Node :: n.Elem? && n.name == key && ValidNode(n) && ElemValue(DEFAULTS, n) == v)
      <==> NormalOne(v) && Canon(v) == v
  {
    if NormalOne(v) && Canon(v) == v {
      PrintedIsValid(key, v, 0);
      PrintedValue(key, v, 0, Plain);
      var n := PrintedElem(key, v, 0, Plain);
      assert n.Elem? && n.name == key && ValidNode(n) && ElemValue(DEFAULTS, n) == v;
    }
    if n: Node :| n.Elem? && n.name == key && ValidNode(n) && ElemValue(DEFAULTS, n) == v {
      ParsedElem(n);
    }
  }
}
