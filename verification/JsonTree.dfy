/** The cJSON item and its child list: doubly linked through next and prev, where the prev of the
    first child is either null (built by the parser) or the last child (built by appending). */
module JsonTree {
  import opened Bytes
  import opened JsonValue

  datatype Kind = Invalid | NullKind | FalseKind | TrueKind | NumberKind | StringKind | ArrayKind | ObjectKind

  class Node {
    var kind: Kind
    var number: Value  // valuedouble: a Num or a Float
    var text: Option<Text>  // valuestring
    var key: Option<Text>  // string
    var child: Node?
    var next: Node?
    var prev: Node?
    ghost var kids: seq<Node>  // the child list

    ghost predicate Blank()
      reads this`kind, this`child, this`text, this`kids
    {
      kind == Invalid && child == null && text == None && kids == []
    }

    /** A blank item, as cJSON_New_Item makes it. */
    constructor ()
      ensures Blank() && key == None && next == null && prev == null
    {
      kind, number, text, key := Invalid, Num(0), None, None;
      child, next, prev := null, null, null;
      kids := [];
    }

    ghost predicate Linked()
      reads this`child, this`kids, kids
    {
      child == First(kids) && Chain(kids, null)
    }

    /** The child list is kids, linked both ways, and the first child's prev is not stale. */
    ghost predicate ListForm()
      reads this`child, this`kids, kids
    {
      Linked() && TailKnown(kids)
    }

    /** The first child's prev is the last child, as after appending to the list. */
    ghost predicate TailCached()
      reads this`kids, kids
    {
      kids != [] && kids[0].prev == Last(kids)
    }
  }

  ghost function First(kids: seq<Node>): Node? {
    if kids == [] then null else kids[0]
  }

  ghost function Last(kids: seq<Node>): Node? {
    if kids == [] then null else kids[|kids| - 1]
  }

  ghost function Follower(kids: seq<Node>, i: int, next: Node?): Node? {
    if 0 <= i + 1 < |kids| then kids[i + 1] else next
  }

  /** Distinct items linked both ways, the last of which is followed by next. */
  ghost predicate Chain(kids: seq<Node>, next: Node?)
    reads kids
  {
    && (forall i, j :: 0 <= i < j < |kids| ==> kids[i] != kids[j])
    && (forall i {:trigger kids[i].next} :: 0 <= i < |kids| ==> kids[i].next == Follower(kids, i, next))
    && (forall i {:trigger kids[i].prev} :: 0 < i < |kids| ==> kids[i].prev == kids[i - 1])
  }

  /** The head's prev is unset, or caches the last item. */
  ghost predicate TailKnown(kids: seq<Node>)
    reads kids
  {
    kids != [] ==> kids[0].prev == null || kids[0].prev == Last(kids)
  }

  /** A set for each of some siblings, for its descendants: no two share any, and none of the siblings is among them. */
  ghost predicate Parted(kids: seq<Node>, family: set<Node>, older parts: seq<set<Node>>) {
    && |parts| == |kids|
    && (forall i :: 0 <= i < |parts| ==> parts[i] <= family)
    && (forall i, j :: 0 <= i < j < |parts| ==> parts[i] !! parts[j])
    && forall i, k :: 0 <= i < |parts| && k in kids ==> k !in parts[i]
  }

  /** The tree under n, whose strict descendants are in family, denotes v. */
  ghost predicate Denotes(n: Node, v: Value, family: set<Node>)
    reads n`kind, n`number, n`text, n`child, n`kids, family
    decreases v
  {
    && (forall k :: k in n.kids ==> k in family)
    && n.ListForm()
    && match v
       case Null => n.kind == NullKind && n.kids == []
       case Bool(b) => n.kind == (if b then TrueKind else FalseKind) && n.kids == []
       case Num(_) => n.kind == NumberKind && n.number == v && n.kids == []
       case Float(_) => n.kind == NumberKind && n.number == v && n.kids == []
       case Str(s) => n.kind == StringKind && n.text == Some(s) && n.kids == []
       case Arr(vs) =>
         && n.kind == ArrayKind && |n.kids| == |vs|
         && exists parts :: Parted(n.kids, family, parts) && forall i :: 0 <= i < |vs| ==> Denotes(n.kids[i], vs[i], parts[i])
       case Obj(ms) =>
         && n.kind == ObjectKind && |n.kids| == |ms|
         && (forall i :: 0 <= i < |ms| ==> n.kids[i].key == Some(ms[i].key))
         && exists parts :: Parted(n.kids, family, parts) && forall i :: 0 <= i < |ms| ==> Denotes(n.kids[i], ms[i].value, parts[i])
  }

  lemma DenotesMore(n: Node, v: Value, family: set<Node>, more: set<Node>)
    requires Denotes(n, v, family) && family <= more
    ensures Denotes(n, v, more)
  {
    match v
    case Arr(vs) =>
      var parts :| Parted(n.kids, family, parts) && forall i :: 0 <= i < |vs| ==> Denotes(n.kids[i], vs[i], parts[i]);
      assert Parted(n.kids, more, parts);
    case Obj(ms) =>
      var parts :| Parted(n.kids, family, parts) && forall i :: 0 <= i < |ms| ==> Denotes(n.kids[i], ms[i].value, parts[i]);
      assert Parted(n.kids, more, parts);
    case _ =>
  }

  lemma ElemDenotes(n: Node, vs: seq<Value>, family: set<Node>, i: nat)
    requires i < |vs| && Denotes(n, Arr(vs), family)
    ensures |n.kids| == |vs| && n.kids[i] in family && Denotes(n.kids[i], vs[i], family)
  {
    var parts :| Parted(n.kids, family, parts) && forall i :: 0 <= i < |vs| ==> Denotes(n.kids[i], vs[i], parts[i]);
    DenotesMore(n.kids[i], vs[i], parts[i], family);
  }

  lemma MemberDenotes(n: Node, ms: seq<Member>, family: set<Node>, i: nat)
    requires i < |ms| && Denotes(n, Obj(ms), family)
    ensures |n.kids| == |ms| && n.kids[i] in family && n.kids[i].key == Some(ms[i].key)
    ensures Denotes(n.kids[i], ms[i].value, family)
  {
    var parts :| Parted(n.kids, family, parts) && forall i :: 0 <= i < |ms| ==> Denotes(n.kids[i], ms[i].value, parts[i]);
    DenotesMore(n.kids[i], ms[i].value, parts[i], family);
  }

  /** An item denotes at most one value. */
  lemma {:induction false} DenotesOnce(n: Node, v: Value, w: Value, family: set<Node>, other: set<Node>)
    requires Denotes(n, v, family) && Denotes(n, w, other)
    ensures v == w
    decreases v
  {
    match v
    case Arr(vs) =>
      forall i | 0 <= i < |vs|
        ensures vs[i] == w.elems[i]
      {
        ElemDenotes(n, vs, family, i);
        ElemDenotes(n, w.elems, other, i);
        DenotesOnce(n.kids[i], vs[i], w.elems[i], family, other);
      }
    case Obj(ms) =>
      forall i | 0 <= i < |ms|
        ensures ms[i] == w.members[i]
      {
        MemberDenotes(n, ms, family, i);
        MemberDenotes(n, w.members, other, i);
        DenotesOnce(n.kids[i], ms[i].value, w.members[i].value, family, other);
      }
    case _ =>
  }
}
