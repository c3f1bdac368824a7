/** cJSON_Compare and cJSON_Duplicate (cjson.c): which trees compare equal, and that a copy does. */
module JsonCompare {
  import opened Bytes
  import opened JsonValue

  // ---- numbers ----

  const DBL_EPSILON: real := 1.0 / 4503599627370496.0

  function Abs(x: real): real {
    if x < 0.0 then -x else x
  }

  /** compare_double. */
  predicate CompareDouble(a: real, b: real) {
    var maxVal := if Abs(a) > Abs(b) then Abs(a) else Abs(b);
    Abs(a - b) <= maxVal * DBL_EPSILON
  }

  /** The tolerance never makes two different exact integers equal. */
  lemma CompareDoubleIsExact(m: ExactInt, n: ExactInt)
    ensures CompareDouble(m as real, n as real) <==> m == n
  {
    var a, b := m as real, n as real;
    var maxVal := if Abs(a) > Abs(b) then Abs(a) else Abs(b);
    assert 0.0 <= maxVal <= EXACT_LIMIT as real;
    assert maxVal * DBL_EPSILON < 1.0;
    if m != n {
      assert Abs(a - b) >= 1.0;
    }
  }

  // ---- keys ----

  function ToLower(b: byte): byte {
    if UPPER_A <= b <= UPPER_Z then b + 0x20 else b
  }

  /** case_insensitive_strcmp finds no difference; the end of a string differs from every byte. */
  predicate CaseEqual(s: Text, t: Text) {
    if s == [] || t == [] then s == t
    else ToLower(s[0]) == ToLower(t[0]) && CaseEqual(s[1..], t[1..])
  }

  function FoldKey(key: Text, caseSensitive: bool): (f: Text)
    ensures |f| == |key|
  {
    if caseSensitive then key else seq(|key|, i requires 0 <= i < |key| => ToLower(key[i]))
  }

  predicate KeyMatch(k: Text, l: Text, caseSensitive: bool) {
    if caseSensitive then k == l else CaseEqual(k, l)
  }

  lemma {:induction false} CaseEqualFolds(s: Text, t: Text)
    ensures CaseEqual(s, t) <==> FoldKey(s, false) == FoldKey(t, false)
  {
    if s != [] && t != [] {
      CaseEqualFolds(s[1..], t[1..]);
      assert FoldKey(s, false) == [ToLower(s[0])] + FoldKey(s[1..], false);
      assert FoldKey(t, false) == [ToLower(t[0])] + FoldKey(t[1..], false);
      assert FoldKey(s, false)[1..] == FoldKey(s[1..], false) && FoldKey(t, false)[1..] == FoldKey(t[1..], false);
    }
  }

  lemma KeyMatchFolds(k: Text, l: Text, caseSensitive: bool)
    ensures KeyMatch(k, l, caseSensitive) <==> FoldKey(k, caseSensitive) == FoldKey(l, caseSensitive)
  {
    if !caseSensitive {
      CaseEqualFolds(k, l);
    }
  }

  /** get_object_item: the index of the first member with a matching key, or the number of members. */
  function FirstIndex(ms: seq<Member>, key: Text, caseSensitive: bool): (i: nat)
    ensures i <= |ms|
    ensures i < |ms| ==> KeyMatch(key, ms[i].key, caseSensitive)
    ensures forall j :: 0 <= j < i ==> !KeyMatch(key, ms[j].key, caseSensitive)
  {
    if ms == [] then 0
    else if KeyMatch(key, ms[0].key, caseSensitive) then 0
    else 1 + FirstIndex(ms[1..], key, caseSensitive)
  }

  // ---- what cJSON_Compare computes ----

  lemma ElemHeight(vs: seq<Value>, i: nat)
    requires i < |vs|
    ensures Height(vs[i]) < Height(Arr(vs))
    decreases vs
  {
    if i > 0 {
      ElemHeight(vs[1..], i - 1);
    }
  }

  lemma MemberHeight(ms: seq<Member>, i: nat)
    requires i < |ms|
    ensures Height(ms[i].value) < Height(Obj(ms))
    decreases ms
  {
    if i > 0 {
      MemberHeight(ms[1..], i - 1);
    }
  }

  /** Every number is an exact integer. */
  predicate Exact(v: Value) {
    match v
    case Float(_) => false
    case Arr(vs) => forall i :: 0 <= i < |vs| ==> Exact(vs[i])
    case Obj(ms) => forall i :: 0 <= i < |ms| ==> Exact(ms[i].value)
    case _ => true
  }

  /** cJSON_Compare on two trees that share no item. */
  predicate Compare(a: Value, b: Value, caseSensitive: bool)
    decreases Height(a) + Height(b), 1
  {
    match (a, b)
    case (Null, Null) => true
    case (Bool(x), Bool(y)) => x == y
    case (Num(m), Num(n)) => CompareDouble(m as real, n as real)
    case (Str(s), Str(t)) => s == t
    case (Arr(vs), Arr(ws)) =>
      |vs| == |ws| &&
      forall i :: 0 <= i < |vs| ==>
        (ElemHeight(vs, i); ElemHeight(ws, i); Compare(vs[i], ws[i], caseSensitive))
    case (Obj(ms), Obj(ns)) =>
      CompareMembers(ms, ns, caseSensitive) && CompareMembers(ns, ms, caseSensitive)
    case _ => false
  }

  /** Every member of ms equals the first member of ns with its key. */
  predicate CompareMembers(ms: seq<Member>, ns: seq<Member>, caseSensitive: bool)
    decreases Height(Obj(ms)) + Height(Obj(ns)), 0
  {
    forall i :: 0 <= i < |ms| ==>
      var j := FirstIndex(ns, ms[i].key, caseSensitive);
      j < |ns| && (MemberHeight(ms, i); MemberHeight(ns, j); Compare(ms[i].value, ns[j].value, caseSensitive))
  }

  // ---- what the trees mean ----

  /** A value with objects as maps from (folded) keys; of several members with one key the first counts. */
  datatype Meaning =
    | MNull
    | MBool(b: bool)
    | MNum(n: int)
    | MFloat(token: Text)
    | MStr(s: Text)
    | MArr(elems: seq<Meaning>)
    | MObj(members: map<Text, Meaning>)

  function Mean(v: Value, caseSensitive: bool): Meaning
    decreases v, 1
  {
    match v
    case Null => MNull
    case Bool(b) => MBool(b)
    case Num(n) => MNum(n)
    case Float(token) => MFloat(token)
    case Str(s) => MStr(s)
    case Arr(vs) => MArr(seq(|vs|, i requires 0 <= i < |vs| => Mean(vs[i], caseSensitive)))
    case Obj(ms) => MObj(MeanMembers(ms, caseSensitive))
  }

  function MeanMembers(ms: seq<Member>, caseSensitive: bool): map<Text, Meaning>
    decreases ms, 0
  {
    if ms == [] then map[]
    else MeanMembers(ms[1..], caseSensitive)[FoldKey(ms[0].key, caseSensitive) := Mean(ms[0].value, caseSensitive)]
  }

  /** Looking a key up in the map finds what get_object_item finds. */
  lemma {:induction false} LookupIsFirst(ms: seq<Member>, key: Text, caseSensitive: bool)
    ensures var i := FirstIndex(ms, key, caseSensitive);
            var k := FoldKey(key, caseSensitive);
            && (k in MeanMembers(ms, caseSensitive) <==> i < |ms|)
            && (i < |ms| ==> MeanMembers(ms, caseSensitive)[k] == Mean(ms[i].value, caseSensitive))
  {
    if ms != [] {
      KeyMatchFolds(key, ms[0].key, caseSensitive);
      LookupIsFirst(ms[1..], key, caseSensitive);
    }
  }

  /** Every key of the map is the folded key of a member. */
  lemma {:induction false} KeyHasMember(ms: seq<Member>, k: Text, caseSensitive: bool) returns (i: nat)
    requires k in MeanMembers(ms, caseSensitive)
    ensures i < |ms| && FoldKey(ms[i].key, caseSensitive) == k
  {
    if FoldKey(ms[0].key, caseSensitive) == k {
      i := 0;
    } else {
      var j := KeyHasMember(ms[1..], k, caseSensitive);
      i := j + 1;
    }
  }

  /** The map knows the member's key with the member's meaning. */
  predicate Agrees(meaning: map<Text, Meaning>, m: Member, caseSensitive: bool) {
    var k := FoldKey(m.key, caseSensitive);
    k in meaning && meaning[k] == Mean(m.value, caseSensitive)
  }

  /** Members of one object with the same key mean the same, all the way down. */
  predicate Coherent(v: Value, caseSensitive: bool)
    decreases v
  {
    match v
    case Arr(vs) => forall i :: 0 <= i < |vs| ==> Coherent(vs[i], caseSensitive)
    case Obj(ms) =>
      forall i :: 0 <= i < |ms| ==>
        && Coherent(ms[i].value, caseSensitive)
        && Agrees(MeanMembers(ms, caseSensitive), ms[i], caseSensitive)
    case _ => true
  }

  /** cJSON_Compare decides equality of meaning, for coherent trees and no others. */
  lemma {:induction false} CompareIsEquality(a: Value, b: Value, caseSensitive: bool)
    requires Exact(a) && Exact(b)
    ensures Compare(a, b, caseSensitive) <==>
            Coherent(a, caseSensitive) && Coherent(b, caseSensitive) && Mean(a, caseSensitive) == Mean(b, caseSensitive)
    decreases Height(a) + Height(b), 2
  {
    match (a, b)
    case (Num(m), Num(n)) => CompareDoubleIsExact(m, n);
    case (Arr(vs), Arr(ws)) =>
      hide *;
      CompareArrays(vs, ws, caseSensitive);
    case (Obj(ms), Obj(ns)) =>
      hide *;
      CompareObjects(ms, ns, caseSensitive);
    case _ =>
      hide MeanMembers, CompareMembers;
  }

  /** A member list that agrees with a map has no key that the map gives another meaning. */
  lemma SubMembers(ms: seq<Member>, n: map<Text, Meaning>, k: Text, caseSensitive: bool)
    requires forall i :: 0 <= i < |ms| ==> Agrees(n, ms[i], caseSensitive)
    requires k in MeanMembers(ms, caseSensitive)
    ensures k in n && MeanMembers(ms, caseSensitive)[k] == n[k]
  {
    hide MeanMembers, Mean, FoldKey;
    var i := KeyHasMember(ms, k, caseSensitive);
    LookupIsFirst(ms, ms[i].key, caseSensitive);
    var first := FirstIndex(ms, ms[i].key, caseSensitive);
    KeyMatchFolds(ms[i].key, ms[first].key, caseSensitive);
    assert Agrees(n, ms[first], caseSensitive);
  }

  /** Two member lists that agree with each other's map have the same map. */
  lemma SameMembers(ms: seq<Member>, ns: seq<Member>, caseSensitive: bool)
    requires forall i :: 0 <= i < |ms| ==> Agrees(MeanMembers(ns, caseSensitive), ms[i], caseSensitive)
    requires forall i :: 0 <= i < |ns| ==> Agrees(MeanMembers(ms, caseSensitive), ns[i], caseSensitive)
    ensures MeanMembers(ms, caseSensitive) == MeanMembers(ns, caseSensitive)
  {
    hide MeanMembers;
    var m, n := MeanMembers(ms, caseSensitive), MeanMembers(ns, caseSensitive);
    forall k | k in m
      ensures k in n && m[k] == n[k]
    {
      SubMembers(ms, n, k, caseSensitive);
    }
    forall k | k in n
      ensures k in m
    {
      SubMembers(ns, m, k, caseSensitive);
    }
  }

  lemma {:induction false} CompareObjects(ms: seq<Member>, ns: seq<Member>, caseSensitive: bool)
    requires Exact(Obj(ms)) && Exact(Obj(ns))
    ensures Compare(Obj(ms), Obj(ns), caseSensitive) <==>
            && Coherent(Obj(ms), caseSensitive) && Coherent(Obj(ns), caseSensitive)
            && Mean(Obj(ms), caseSensitive) == Mean(Obj(ns), caseSensitive)
    decreases Height(Obj(ms)) + Height(Obj(ns)), 1
  {
    hide FirstIndex, FoldKey, KeyMatch, CompareMembers, MeanMembers;
    CompareOneWay(ms, ns, caseSensitive);
    CompareOneWay(ns, ms, caseSensitive);
    if Compare(Obj(ms), Obj(ns), caseSensitive) {
      SameMembers(ms, ns, caseSensitive);
    }
  }

  lemma {:induction false} CompareArrays(vs: seq<Value>, ws: seq<Value>, caseSensitive: bool)
    requires Exact(Arr(vs)) && Exact(Arr(ws))
    ensures Compare(Arr(vs), Arr(ws), caseSensitive) <==>
            && Coherent(Arr(vs), caseSensitive) && Coherent(Arr(ws), caseSensitive)
            && Mean(Arr(vs), caseSensitive) == Mean(Arr(ws), caseSensitive)
    decreases Height(Arr(vs)) + Height(Arr(ws)), 0
  {
    if |vs| == |ws| {
      forall i | 0 <= i < |vs|
        ensures Compare(vs[i], ws[i], caseSensitive) <==>
                && Coherent(vs[i], caseSensitive) && Coherent(ws[i], caseSensitive)
                && Mean(vs[i], caseSensitive) == Mean(ws[i], caseSensitive)
      {
        ElemHeight(vs, i);
        ElemHeight(ws, i);
        CompareIsEquality(vs[i], ws[i], caseSensitive);
      }
      if Mean(Arr(vs), caseSensitive) == Mean(Arr(ws), caseSensitive) {
        forall i | 0 <= i < |vs|
          ensures Mean(vs[i], caseSensitive) == Mean(ws[i], caseSensitive)
        {
          assert Mean(Arr(vs), caseSensitive).elems[i] == Mean(Arr(ws), caseSensitive).elems[i];
        }
      }
    }
  }

  /** One of the two loops over members: all of ms are coherent and agree with ns. */
  lemma {:induction false} CompareOneWay(ms: seq<Member>, ns: seq<Member>, caseSensitive: bool)
    requires Exact(Obj(ms)) && Exact(Obj(ns))
    ensures CompareMembers(ms, ns, caseSensitive) ==>
              forall i :: 0 <= i < |ms| ==> Coherent(ms[i].value, caseSensitive) && Agrees(MeanMembers(ns, caseSensitive), ms[i], caseSensitive)
    ensures (forall i :: 0 <= i < |ms| ==> Coherent(ms[i].value, caseSensitive) && Agrees(MeanMembers(ns, caseSensitive), ms[i], caseSensitive))
            && Coherent(Obj(ns), caseSensitive)
            ==> CompareMembers(ms, ns, caseSensitive)
    decreases Height(Obj(ms)) + Height(Obj(ns)), 0
  {
    forall i | 0 <= i < |ms|
      ensures var j := FirstIndex(ns, ms[i].key, caseSensitive);
              && (Agrees(MeanMembers(ns, caseSensitive), ms[i], caseSensitive) <==>
                  j < |ns| && Mean(ns[j].value, caseSensitive) == Mean(ms[i].value, caseSensitive))
              && (j < |ns| ==>
                  (Compare(ms[i].value, ns[j].value, caseSensitive) <==>
                   && Coherent(ms[i].value, caseSensitive) && Coherent(ns[j].value, caseSensitive)
                   && Mean(ms[i].value, caseSensitive) == Mean(ns[j].value, caseSensitive)))
    {
      LookupIsFirst(ns, ms[i].key, caseSensitive);
      var j := FirstIndex(ns, ms[i].key, caseSensitive);
      if j < |ns| {
        MemberHeight(ms, i);
        MemberHeight(ns, j);
        CompareIsEquality(ms[i].value, ns[j].value, caseSensitive);
      }
    }
  }

  /** So it is symmetric and transitive on all trees, and reflexive exactly on coherent ones. */
  lemma CompareLaws(a: Value, b: Value, c: Value, caseSensitive: bool)
    requires Exact(a) && Exact(b) && Exact(c)
    ensures Compare(a, a, caseSensitive) <==> Coherent(a, caseSensitive)
    ensures Compare(a, b, caseSensitive) ==> Compare(b, a, caseSensitive)
    ensures Compare(a, b, caseSensitive) && Compare(b, c, caseSensitive) ==> Compare(a, c, caseSensitive)
  {
    CompareIsEquality(a, a, caseSensitive);
    CompareIsEquality(a, b, caseSensitive);
    CompareIsEquality(b, a, caseSensitive);
    CompareIsEquality(b, c, caseSensitive);
    CompareIsEquality(a, c, caseSensitive);
  }

  /** No two members of an object have matching keys, all the way down. */
  predicate DistinctKeys(v: Value, caseSensitive: bool)
    decreases v
  {
    match v
    case Arr(vs) => forall i :: 0 <= i < |vs| ==> DistinctKeys(vs[i], caseSensitive)
    case Obj(ms) =>
      && (forall i, j :: 0 <= i < j < |ms| ==> !KeyMatch(ms[i].key, ms[j].key, caseSensitive))
      && forall i :: 0 <= i < |ms| ==> DistinctKeys(ms[i].value, caseSensitive)
    case _ => true
  }

  lemma {:induction false} DistinctIsCoherent(v: Value, caseSensitive: bool)
    requires DistinctKeys(v, caseSensitive)
    ensures Coherent(v, caseSensitive)
    decreases v
  {
    match v
    case Arr(vs) =>
      forall i | 0 <= i < |vs|
        ensures Coherent(vs[i], caseSensitive)
      {
        DistinctIsCoherent(vs[i], caseSensitive);
      }
    case Obj(ms) =>
      forall i | 0 <= i < |ms|
        ensures Coherent(ms[i].value, caseSensitive) && Agrees(MeanMembers(ms, caseSensitive), ms[i], caseSensitive)
      {
        DistinctIsCoherent(ms[i].value, caseSensitive);
        LookupIsFirst(ms, ms[i].key, caseSensitive);
        KeyMatchFolds(ms[i].key, ms[i].key, caseSensitive);
        var first := FirstIndex(ms, ms[i].key, caseSensitive);
        if first < i {
          KeyMatchFolds(ms[i].key, ms[first].key, caseSensitive);
          KeyMatchFolds(ms[first].key, ms[i].key, caseSensitive);
        }
      }
    case _ =>
  }

  /** {"a":1,"a":2} is not coherent: it does not compare equal to a copy of itself. */
  lemma DuplicateKeysBreakReflexivity()
    ensures var v := Obj([Member([LOWER_A], Num(1)), Member([LOWER_A], Num(2))]);
            Exact(v) && !Compare(v, v, true)
  {
    var v := Obj([Member([LOWER_A], Num(1)), Member([LOWER_A], Num(2))]);
    CompareIsEquality(v, v, true);
    assert !Agrees(MeanMembers(v.members, true), v.members[1], true);
  }
}
