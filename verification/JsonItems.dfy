/** cJSON_Compare, cJSON_Duplicate and the lookup of members, on the linked items themselves. */
module JsonItems {
  import opened Bytes
  import opened JsonValue
  import opened JsonTree
  import opened JsonCompare
  import opened JsonReader

  lemma ObjectItem(parent: Node, ms: seq<Member>, family: set<Node>, i: nat)
    requires i < |ms| && Denotes(parent, Obj(ms), family)
    ensures |parent.kids| == |ms| && parent.kids[i] in family
    ensures parent.kids[i].key == Some(ms[i].key) && Denotes(parent.kids[i], ms[i].value, family)
    ensures parent.kids[i].next == Follower(parent.kids, i, null)
  {
    MemberDenotes(parent, ms, family, i);
  }

  lemma ObjectHead(parent: Node, ms: seq<Member>, family: set<Node>)
    requires Denotes(parent, Obj(ms), family)
    ensures parent.child == First(parent.kids) && |parent.kids| == |ms|
  {
  }

  /** get_object_item: the first child with a matching key. */
  method GetObjectItem(parent: Node, name: Text, caseSensitive: bool, ghost ms: seq<Member>, ghost family: set<Node>)
    returns (r: Node?)
    requires Denotes(parent, Obj(ms), family)
    ensures r == null <==> FirstIndex(ms, name, caseSensitive) == |ms|
    ensures r != null ==> r == parent.kids[FirstIndex(ms, name, caseSensitive)]
  {
    hide Denotes, KeyMatch;
    r := parent.child;
    ghost var i := 0;
    assert ms[0..] == ms;
    assert parent.child == First(parent.kids) && |parent.kids| == |ms| by { ObjectHead(parent, ms, family); }
    while r != null
      invariant i <= |ms| && r == (if i < |ms| then parent.kids[i] else null)
      invariant FirstIndex(ms, name, caseSensitive) == i + FirstIndex(ms[i..], name, caseSensitive)
      decreases |ms| - i
    {
      ObjectItem(parent, ms, family, i);
      assert ms[i..][0] == ms[i] && ms[i..][1..] == ms[i + 1..];
      if KeyMatch(name, r.key.value, caseSensitive) {
        return;
      }
      r := r.next;
      i := i + 1;
    }
  }

  /** No item of one tree is an item of the other. */
  ghost predicate Apart(a: Node, b: Node, fa: set<Node>, fb: set<Node>) {
    {a} + fa !! {b} + fb
  }

  /** What makes the shortcut for identical items harmless: there are none, or they equal themselves. */
  ghost predicate Harmless(a: Node, b: Node, va: Value, vb: Value, fa: set<Node>, fb: set<Node>, caseSensitive: bool) {
    Apart(a, b, fa, fb) || (Coherent(va, caseSensitive) && Coherent(vb, caseSensitive))
  }

  /** What the fields of an item say of the value that it denotes. */
  lemma Scalars(n: Node, v: Value, family: set<Node>)
    requires Denotes(n, v, family)
    ensures n.kind == match v
                      case Null => NullKind
                      case Bool(b) => if b then TrueKind else FalseKind
                      case Num(_) => NumberKind
                      case Float(_) => NumberKind
                      case Str(_) => StringKind
                      case Arr(_) => ArrayKind
                      case Obj(_) => ObjectKind
    ensures v.Num? || v.Float? ==> n.number == v
    ensures v.Str? ==> n.text == Some(v.s)
  {
  }

  /** cJSON_Compare. */
  method CompareItems(a: Node?, b: Node?, caseSensitive: bool,
                      ghost va: Value, ghost vb: Value, ghost fa: set<Node>, ghost fb: set<Node>)
    returns (r: bool)
    requires a != null ==> Denotes(a, va, fa) && Exact(va)
    requires b != null ==> Denotes(b, vb, fb) && Exact(vb)
    ensures a == null || b == null ==> !r
    ensures a != null && b != null && Harmless(a, b, va, vb, fa, fb, caseSensitive) ==> (r <==> Compare(va, vb, caseSensitive))
    ensures a != null && a == b ==> r
    decreases Height(va) + Height(vb), 2
  {
    hide Denotes, CompareMembers, Height, Coherent, Mean, CompareDouble;
    if a == null || b == null {
      return false;
    }
    Scalars(a, va, fa);
    Scalars(b, vb, fb);
    if a.kind != b.kind || a.kind == Invalid {
      return false;
    }
    if a == b {
      DenotesOnce(a, va, vb, fa, fb);
      CompareIsEquality(va, vb, caseSensitive);
      return true;
    }
    match a.kind
    case NullKind => r := true;
    case FalseKind => r := true;
    case TrueKind => r := true;
    case NumberKind => r := CompareDouble(a.number.n as real, b.number.n as real);
    case StringKind => r := a.text == b.text;
    case ArrayKind => r := CompareElements(a, b, caseSensitive, va.elems, vb.elems, fa, fb);
    case ObjectKind =>
      r := MatchMembers(a, b, caseSensitive, va.members, vb.members, fa, fb);
      if r {
        r := MatchMembers(b, a, caseSensitive, vb.members, va.members, fb, fa);
      }
  }

  lemma ArrayHead(parent: Node, vs: seq<Value>, family: set<Node>)
    requires Denotes(parent, Arr(vs), family)
    ensures parent.child == First(parent.kids) && |parent.kids| == |vs|
  {
  }

  lemma ArrayItem(parent: Node, vs: seq<Value>, family: set<Node>, i: nat)
    requires i < |vs| && Denotes(parent, Arr(vs), family) && Exact(Arr(vs))
    ensures |parent.kids| == |vs| && parent.kids[i] in family
    ensures Denotes(parent.kids[i], vs[i], family) && Exact(vs[i])
    ensures parent.kids[i].next == Follower(parent.kids, i, null)
  {
    ElemDenotes(parent, vs, family, i);
  }

  lemma HarmlessElems(a: Node, b: Node, vs: seq<Value>, ws: seq<Value>, fa: set<Node>, fb: set<Node>, i: nat, caseSensitive: bool)
    requires i < |vs| && i < |ws| && |a.kids| == |vs| && |b.kids| == |ws| && a.kids[i] in fa && b.kids[i] in fb
    ensures Harmless(a, b, Arr(vs), Arr(ws), fa, fb, caseSensitive) ==>
              Harmless(a.kids[i], b.kids[i], vs[i], ws[i], fa, fb, caseSensitive)
  {
  }

  lemma ArraysDiffer(vs: seq<Value>, ws: seq<Value>, i: nat, caseSensitive: bool)
    requires i < |vs| && i < |ws|
    ensures !Compare(vs[i], ws[i], caseSensitive) ==> !Compare(Arr(vs), Arr(ws), caseSensitive)
  {
  }

  lemma ArraysCompared(vs: seq<Value>, ws: seq<Value>, caseSensitive: bool)
    ensures Compare(Arr(vs), Arr(ws), caseSensitive) <==>
            |vs| == |ws| && forall i :: 0 <= i < |vs| ==> Compare(vs[i], ws[i], caseSensitive)
  {
  }

  /** The loop over two arrays. */
  method CompareElements(a: Node, b: Node, caseSensitive: bool,
                         ghost vs: seq<Value>, ghost ws: seq<Value>, ghost fa: set<Node>, ghost fb: set<Node>)
    returns (r: bool)
    requires a != b && Denotes(a, Arr(vs), fa) && Exact(Arr(vs)) && Denotes(b, Arr(ws), fb) && Exact(Arr(ws))
    ensures Harmless(a, b, Arr(vs), Arr(ws), fa, fb, caseSensitive) ==> (r <==> Compare(Arr(vs), Arr(ws), caseSensitive))
    decreases Height(Arr(vs)) + Height(Arr(ws)), 1
  {
    hide Height, Denotes, Exact, Coherent, Compare;
    var x, y := a.child, b.child;
    ghost var i := 0;
    ArrayHead(a, vs, fa);
    ArrayHead(b, ws, fb);
    while x != null && y != null
      invariant i <= |vs| && i <= |ws|
      invariant x == (if i < |vs| then a.kids[i] else null) && y == (if i < |ws| then b.kids[i] else null)
      invariant Harmless(a, b, Arr(vs), Arr(ws), fa, fb, caseSensitive) ==>
                  forall j :: 0 <= j < i ==> Compare(vs[j], ws[j], caseSensitive)
      decreases |vs| - i
    {
      ArrayItem(a, vs, fa, i);
      ArrayItem(b, ws, fb, i);
      HarmlessElems(a, b, vs, ws, fa, fb, i, caseSensitive);
      ElemHeight(vs, i);
      ElemHeight(ws, i);
      var same := CompareItems(x, y, caseSensitive, vs[i], ws[i], fa, fb);
      if !same {
        ArraysDiffer(vs, ws, i, caseSensitive);
        return false;
      }
      x, y := x.next, y.next;
      i := i + 1;
    }
    r := x == y;
    ArraysCompared(vs, ws, caseSensitive);
  }

  ghost predicate Matched(ms: seq<Member>, ns: seq<Member>, i: nat, caseSensitive: bool)
    requires i < |ms|
  {
    var j := FirstIndex(ns, ms[i].key, caseSensitive);
    j < |ns| && Compare(ms[i].value, ns[j].value, caseSensitive)
  }

  lemma HarmlessMembers(a: Node, b: Node, ms: seq<Member>, ns: seq<Member>, fa: set<Node>, fb: set<Node>,
                        i: nat, j: nat, caseSensitive: bool)
    requires i < |ms| && j < |ns| && |a.kids| == |ms| && |b.kids| == |ns| && a.kids[i] in fa && b.kids[j] in fb
    requires Exact(Obj(ms)) && Exact(Obj(ns))
    ensures Harmless(a, b, Obj(ms), Obj(ns), fa, fb, caseSensitive) ==>
              Harmless(a.kids[i], b.kids[j], ms[i].value, ns[j].value, fa, fb, caseSensitive)
    ensures Exact(ms[i].value) && Exact(ns[j].value)
  {
  }

  lemma Unmatched(ms: seq<Member>, ns: seq<Member>, i: nat, caseSensitive: bool)
    requires i < |ms|
    ensures !Matched(ms, ns, i, caseSensitive) ==> !CompareMembers(ms, ns, caseSensitive)
  {
  }

  lemma AllMatched(ms: seq<Member>, ns: seq<Member>, caseSensitive: bool)
    ensures CompareMembers(ms, ns, caseSensitive) <==> forall i :: 0 <= i < |ms| ==> Matched(ms, ns, i, caseSensitive)
  {
    if !CompareMembers(ms, ns, caseSensitive) {
      var i :| 0 <= i < |ms| && var j := FirstIndex(ns, ms[i].key, caseSensitive); !(j < |ns| && Compare(ms[i].value, ns[j].value, caseSensitive));
      assert !Matched(ms, ns, i, caseSensitive);
    } else {
      forall i | 0 <= i < |ms|
        ensures Matched(ms, ns, i, caseSensitive)
      {
        Unmatched(ms, ns, i, caseSensitive);
      }
    }
  }

  /** One of the two loops over the members of objects. */
  method MatchMembers(a: Node, b: Node, caseSensitive: bool,
                      ghost ms: seq<Member>, ghost ns: seq<Member>, ghost fa: set<Node>, ghost fb: set<Node>)
    returns (r: bool)
    requires a != b && Denotes(a, Obj(ms), fa) && Exact(Obj(ms)) && Denotes(b, Obj(ns), fb) && Exact(Obj(ns))
    ensures Harmless(a, b, Obj(ms), Obj(ns), fa, fb, caseSensitive) ==> (r <==> CompareMembers(ms, ns, caseSensitive))
    decreases Height(Obj(ms)) + Height(Obj(ns)), 1
  {
    hide Height, Denotes, Exact, Coherent, Compare, CompareMembers;
    var x := a.child;
    ghost var i := 0;
    ObjectHead(a, ms, fa);
    while x != null
      invariant i <= |ms| && x == (if i < |ms| then a.kids[i] else null)
      invariant Harmless(a, b, Obj(ms), Obj(ns), fa, fb, caseSensitive) ==>
                  forall j :: 0 <= j < i ==> Matched(ms, ns, j, caseSensitive)
      decreases |ms| - i
    {
      ObjectItem(a, ms, fa, i);
      var y := GetObjectItem(b, x.key.value, caseSensitive, ns, fb);
      if y == null {
        Unmatched(ms, ns, i, caseSensitive);
        return false;
      }
      ghost var j := FirstIndex(ns, ms[i].key, caseSensitive);
      ObjectItem(b, ns, fb, j);
      HarmlessMembers(a, b, ms, ns, fa, fb, i, j, caseSensitive);
      MemberHeight(ms, i);
      MemberHeight(ns, j);
      var same := CompareItems(x, y, caseSensitive, ms[i].value, ns[j].value, fa, fb);
      if !same {
        Unmatched(ms, ns, i, caseSensitive);
        return false;
      }
      x := x.next;
      i := i + 1;
    }
    r := true;
    AllMatched(ms, ns, caseSensitive);
  }

  // ---- copies ----

  ghost function ChildValues(v: Value): seq<Value> {
    match v
    case Arr(vs) => vs
    case Obj(ms) => MemberValues(ms)
    case _ => []
  }

  lemma CopyDenotes(item: Node, copy: Node, v: Value, family: set<Node>, copies: set<Node>)
    requires Denotes(item, v, family)
    requires copy.kind == item.kind && copy.number == item.number && copy.text == item.text
    requires copy.child == First(copy.kids) && ListOf(copy.kids, ChildValues(v), copies)
    requires v.Obj? ==> KeysOf(copy.kids, v.members)
    ensures Denotes(copy, v, copies + set k | k in copy.kids)
  {
    match v
    case Arr(vs) => ArrayDenotes(copy, vs, copies);
    case Obj(ms) => ObjectDenotes(copy, ms, copies);
    case _ =>
  }

  /** Makes the copied children those of the copy. */
  method Adopt(item: Node, copy: Node, head: Node?, ghost items: seq<Node>,
               ghost v: Value, ghost family: set<Node>, ghost copies: set<Node>)
    requires Denotes(item, v, family) && copy != item && copy !in family && copy !in items && copy !in copies
    requires copy.kind == item.kind && copy.number == item.number && copy.text == item.text
    requires head == First(items) && ListOf(items, ChildValues(v), copies)
    requires v.Obj? ==> KeysOf(items, v.members)
    modifies copy`child, copy`kids
    ensures copy.child == head && copy.kids == items
    ensures Denotes(copy, v, copies + set k | k in items)
  {
    hide Denotes, ListOf, KeysOf, ChildValues;
    copy.child, copy.kids := head, items;
    CopyDenotes(item, copy, v, family, copies);
  }

  /** cJSON_Duplicate: with recursion, a tree of new items that denotes the same value. */
  method Duplicate(item: Node, recurse: bool, ghost v: Value, ghost family: set<Node>)
    returns (copy: Node, ghost copies: set<Node>)
    requires Denotes(item, v, family)
    ensures fresh(copy) && fresh(copies) && copy !in copies
    ensures recurse ==> Denotes(copy, v, copies)
    ensures !recurse ==> copy.kids == [] && copy.child == null
    ensures copy.kind == item.kind && copy.number == item.number && copy.text == item.text
    ensures copy.key == item.key && copy.next == null && copy.prev == null
    decreases v, 1
  {
    hide Denotes, ListOf, KeysOf, ChildValues;
    ghost var items := [];
    copies := {};
    copy := new Node();
    copy.kind, copy.number, copy.text, copy.key := item.kind, item.number, item.text, item.key;
    if recurse {
      var head;
      head, items, copies := DuplicateChildren(item, v, family);
      Adopt(item, copy, head, items, v, family, copies);
      copies := copies + set k | k in items;
    }
  }

  lemma ChildOf(item: Node, v: Value, family: set<Node>, i: nat)
    requires Denotes(item, v, family) && i < |ChildValues(v)|
    ensures |item.kids| == |ChildValues(v)| && Denotes(item.kids[i], ChildValues(v)[i], family)
    ensures item.kids[i].next == Follower(item.kids, i, null)
    ensures v.Obj? ==> item.kids[i].key == Some(v.members[i].key)
  {
    if v.Arr? {
      ElemDenotes(item, v.elems, family, i);
    } else {
      MemberDenotes(item, v.members, family, i);
    }
  }

  lemma ChildrenOf(item: Node, v: Value, family: set<Node>)
    requires Denotes(item, v, family)
    ensures item.child == First(item.kids) && |item.kids| == |ChildValues(v)|
    ensures v.Obj? ==> |item.kids| == |v.members|
  {
  }

  lemma CopiedKeys(item: Node, v: Value, family: set<Node>, items: seq<Node>)
    requires v.Obj? && Denotes(item, v, family) && |items| == |v.members|
    requires forall j :: 0 <= j < |items| ==> j < |item.kids| && items[j].key == item.kids[j].key
    ensures KeysOf(items, v.members)
  {
    forall j | 0 <= j < |items|
      ensures items[j].key == Some(v.members[j].key)
    {
      ObjectItem(item, v.members, family, j);
    }
  }

  lemma TakeOneMore<T>(s: seq<T>, i: nat)
    requires i < |s|
    ensures s[..i + 1] == s[..i] + [s[i]]
  {
  }

  lemma ChildSmaller(v: Value, i: nat)
    requires i < |ChildValues(v)|
    ensures ChildValues(v)[i] < v
  {
  }

  /** Hangs a copied child behind the last one. */
  method LinkCopy(last: Node?, copy: Node, ghost items: seq<Node>, ghost vals: seq<Value>, ghost copies: set<Node>,
                  ghost v: Value, ghost below: set<Node>)
    requires last == Last(items) && ListOf(items, vals, copies) && Denotes(copy, v, below)
    requires copy !in items && copy !in copies && copy !in below && copies !! below
    requires copy.next == null && copy.prev == null && forall k :: k in items ==> k !in below
    modifies copy`prev, if last == null then {} else {last}
    ensures ListOf(items + [copy], vals + [v], copies + below)
    ensures copy.key == old(copy.key) && forall k :: k in items ==> k.key == old(k.key)
  {
    hide Denotes;
    if last != null {
      last.next := copy;
      copy.prev := last;
    }
    ListGrows(items, vals, copies, copy, v, below);
  }

  /** The loop of cJSON_Duplicate over the children. */
  /** One round of the loop of cJSON_Duplicate. */
  method CopyChild(child: Node, last: Node?, ghost items: seq<Node>, ghost vals: seq<Value>, ghost copies: set<Node>,
                   ghost v: Value, ghost family: set<Node>)
    returns (copy: Node, ghost all: set<Node>)
    requires Denotes(child, v, family) && last == Last(items) && ListOf(items, vals, copies)
    modifies if last == null then {} else {last}
    ensures fresh(copy) && fresh(all - copies) && ListOf(items + [copy], vals + [v], all)
    ensures copy.key == old(child.key) && forall k :: k in items ==> k.key == old(k.key)
    decreases v, 2
  {
    hide Denotes, ListOf;
    ghost var below;
    copy, below := Duplicate(child, true, v, family);
    LinkCopy(last, copy, items, vals, copies, v, below);
    all := copies + below;
  }

  method DuplicateChildren(item: Node, ghost v: Value, ghost family: set<Node>)
    returns (head: Node?, ghost items: seq<Node>, ghost copies: set<Node>)
    requires Denotes(item, v, family)
    ensures head == First(items) && ListOf(items, ChildValues(v), copies)
    ensures v.Obj? ==> KeysOf(items, v.members)
    ensures fresh(copies) && forall k :: k in items ==> fresh(k)
    decreases v, 0
  {
    hide Denotes, ChildValues, Chain, ListOf, KeysOf;
    head, items, copies := null, [], {};
    EmptyList();
    ChildrenOf(item, v, family);
    ghost var vals := ChildValues(v);
    var last: Node? := null;
    var child := item.child;
    while child != null
      invariant |items| <= |vals| && child == (if |items| < |vals| then item.kids[|items|] else null)
      invariant head == First(items) && last == Last(items) && (last != null ==> fresh(last))
      invariant ListOf(items, vals[..|items|], copies)
      invariant forall j :: 0 <= j < |items| ==> items[j].key == item.kids[j].key
      invariant fresh(copies) && forall k :: k in items ==> fresh(k)
      decreases |vals| - |items|
    {
      ghost var i := |items|;
      ChildOf(item, v, family, i);
      ChildSmaller(v, i);
      var copy;
      copy, copies := CopyChild(child, last, items, vals[..i], copies, vals[i], family);
      TakeOneMore(vals, i);
      head, last := if head == null then copy else head, copy;
      items := items + [copy];
      child := child.next;
    }
    assert vals[..|vals|] == vals;
    if v.Obj? {
      CopiedKeys(item, v, family, items);
    }
  }

  /** A copy shares no item with its source, and compares equal to it exactly if the source is coherent. */
  method CopyAndCompare(item: Node, caseSensitive: bool, ghost v: Value, ghost family: set<Node>) returns (same: bool)
    requires Denotes(item, v, family) && Exact(v)
    ensures same <==> Coherent(v, caseSensitive)
  {
    hide Denotes, Exact, Coherent, Compare, Mean;
    var copy;
    ghost var copies;
    copy, copies := Duplicate(item, true, v, family);
    CompareIsEquality(v, v, caseSensitive);
    same := CompareItems(item, copy, caseSensitive, v, v, family, copies);
  }
}
