/**
 * `_canonicalize` of src/exec_rest_api/subscriptions.py: `json.dumps` with
 * sorted keys as a dictionary key for subscribe parameters.
 */
module Canonical {
  import opened JsonText
  import opened JsonRoundTrip

  /** Code-point order on strings, as Python compares `str`. */
  predicate Less(a: string, b: string) {
    b != "" && (a == "" || a[0] < b[0] || (a[0] == b[0] && Less(a[1..], b[1..])))
  }

  function Insert(m: Member, ms: seq<Member>): seq<Member> {
    if ms == [] || Less(m.key, ms[0].key) then [m] + ms else [ms[0]] + Insert(m, ms[1..])
  }

  /** Every dictionary inside re-ordered by key. */
  function SortKeys(j: Json): Json
    decreases j, 1
  {
    match j
    case Arr(items) => Arr(SortItems(items))
    case Obj(members) => Obj(SortMembers(members))
    case _ => j
  }

  function SortItems(items: seq<Json>): (r: seq<Json>)
    decreases items, 0
  {
    if items == [] then [] else [SortKeys(items[0])] + SortItems(items[1..])
  }

  function SortMembers(members: seq<Member>): seq<Member>
    decreases members, 0
  {
    if members == [] then []
    else
      assert members[0].value < members[0];
      Insert(Member(members[0].key, SortKeys(members[0].value)), SortMembers(members[1..]))
  }

  /** `json.dumps(params, sort_keys=True, separators=(",", ":"))` */
  function Canonicalize(params: Json): string {
    Print(SortKeys(params))
  }

  // ---------------------------------------------------------------------
  // The value a JSON text denotes: dictionaries are maps, order forgotten
  // ---------------------------------------------------------------------

  datatype Value =
    | NullValue
    | BoolValue(b: bool)
    | IntValue(n: int)
    | StrValue(s: string)
    | ListValue(items: seq<Value>)
    | DictValue(entries: map<string, Value>)

  function Meaning(j: Json): Value
    decreases j, 1
  {
    match j
    case Null => NullValue
    case Bool(b) => BoolValue(b)
    case Int(n) => IntValue(n)
    case Str(s) => StrValue(s)
    case Arr(items) => ListValue(ItemsMeaning(items))
    case Obj(members) => DictValue(Entries(members))
  }

  function ItemsMeaning(items: seq<Json>): (r: seq<Value>)
    ensures |r| == |items|
    decreases items, 0
  {
    if items == [] then [] else [Meaning(items[0])] + ItemsMeaning(items[1..])
  }

  function Entries(members: seq<Member>): map<string, Value>
    decreases members, 0
  {
    if members == [] then map[]
    else
      assert members[0].value < members[0];
      Entries(members[1..])[members[0].key := Meaning(members[0].value)]
  }

  // ---------------------------------------------------------------------
  // The order
  // ---------------------------------------------------------------------

  lemma LessTransitive(a: string, b: string, c: string)
    requires Less(a, b) && Less(b, c)
    ensures Less(a, c)
  {
  }

  lemma LessTotal(a: string, b: string)
    requires a != b
    ensures Less(a, b) || Less(b, a)
  {
    if a != "" && b != "" && a[0] == b[0] {
      assert a == [a[0]] + a[1..] && b == [b[0]] + b[1..];
      LessTotal(a[1..], b[1..]);
    }
  }

  lemma LessIrreflexive(a: string)
    ensures !Less(a, a)
  {
  }

  ghost function Keys(ms: seq<Member>): set<string> {
    if ms == [] then {} else {ms[0].key} + Keys(ms[1..])
  }

  /** Keys strictly increasing. */
  ghost predicate Sorted(ms: seq<Member>) {
    ms != [] ==> (forall k :: k in Keys(ms[1..]) ==> Less(ms[0].key, k)) && Sorted(ms[1..])
  }

  lemma KeysOf(ms: seq<Member>, k: string)
    ensures k in Keys(ms) <==> exists i :: 0 <= i < |ms| && ms[i].key == k
  {
    if ms != [] {
      KeysOf(ms[1..], k);
      if k in Keys(ms[1..]) {
        var i :| 0 <= i < |ms[1..]| && ms[1..][i].key == k;
        assert ms[i + 1].key == k;
      } else if i :| 0 <= i < |ms| && ms[i].key == k {
        assert i > 0 ==> ms[1..][i - 1].key == k;
      }
    }
  }

  lemma EntriesKeys(ms: seq<Member>)
    ensures Entries(ms).Keys == Keys(ms)
  {
  }

  lemma InsertFirst(m: Member, ms: seq<Member>)
    requires Sorted(ms) && (ms == [] || Less(m.key, ms[0].key))
    ensures Sorted([m] + ms) && Keys([m] + ms) == Keys(ms) + {m.key}
    ensures Entries([m] + ms) == Entries(ms)[m.key := Meaning(m.value)]
  {
    assert ([m] + ms)[1..] == ms;
    if ms != [] {
      forall k | k in Keys(ms) ensures Less(m.key, k) {
        if k != ms[0].key {
          LessTransitive(m.key, ms[0].key, k);
        }
      }
    }
  }

  lemma {:induction false} InsertSorted(m: Member, ms: seq<Member>)
    requires Sorted(ms) && m.key !in Keys(ms)
    ensures Sorted(Insert(m, ms)) && Keys(Insert(m, ms)) == Keys(ms) + {m.key}
    ensures Entries(Insert(m, ms)) == Entries(ms)[m.key := Meaning(m.value)]
  {
    if ms == [] || Less(m.key, ms[0].key) {
      InsertFirst(m, ms);
    } else {
      InsertSorted(m, ms[1..]);
      LessTotal(ms[0].key, m.key);
      var r := Insert(m, ms);
      assert r[0] == ms[0] && r[1..] == Insert(m, ms[1..]);
    }
  }

  // ---------------------------------------------------------------------
  // Sorting keys keeps the meaning and reaches a normal form
  // ---------------------------------------------------------------------

  /** Every dictionary inside is sorted. */
  ghost predicate Normal(j: Json) {
    match j
    case Arr(items) => forall i :: 0 <= i < |items| ==> Normal(items[i])
    case Obj(members) => Sorted(members) && forall i :: 0 <= i < |members| ==> Normal(members[i].value)
    case _ => true
  }

  lemma {:induction false} SortedDistinct(ms: seq<Member>)
    requires Sorted(ms)
    ensures DistinctKeys(ms)
  {
    if ms != [] {
      SortedDistinct(ms[1..]);
      LessIrreflexive(ms[0].key);
      KeysOf(ms[1..], ms[0].key);
      forall i, k | 0 <= i < k < |ms| ensures ms[i].key != ms[k].key {
        assert ms[k].key == ms[1..][k - 1].key;
        if i > 0 {
          assert ms[i].key == ms[1..][i - 1].key;
        }
      }
    }
  }

  lemma DistinctHead(ms: seq<Member>)
    requires DistinctKeys(ms) && ms != []
    ensures DistinctKeys(ms[1..]) && ms[0].key !in Keys(ms[1..])
  {
    KeysOf(ms[1..], ms[0].key);
  }

  lemma {:induction false} NormalWellFormed(j: Json)
    requires Normal(j)
    ensures WellFormed(j)
    decreases j
  {
    match j
    case Arr(items) =>
      forall i | 0 <= i < |items| ensures WellFormed(items[i]) { NormalWellFormed(items[i]); }
    case Obj(members) =>
      forall i | 0 <= i < |members| ensures WellFormed(members[i].value) {
        assert members[i].value < members[i];
        NormalWellFormed(members[i].value);
      }
      SortedDistinct(members);
    case _ =>
  }

  lemma {:induction false} SortKeysNormal(j: Json)
    requires WellFormed(j)
    ensures Normal(SortKeys(j)) && Meaning(SortKeys(j)) == Meaning(j)
    decreases j, 1
  {
    match j
    case Arr(items) => SortItemsNormal(items);
    case Obj(members) => SortMembersNormal(members);
    case _ =>
  }

  lemma {:induction false} SortItemsNormal(items: seq<Json>)
    requires forall i :: 0 <= i < |items| ==> WellFormed(items[i])
    ensures forall i :: 0 <= i < |SortItems(items)| ==> Normal(SortItems(items)[i])
    ensures ItemsMeaning(SortItems(items)) == ItemsMeaning(items)
    decreases items, 0
  {
    if items != [] {
      SortKeysNormal(items[0]);
      SortItemsNormal(items[1..]);
      assert SortItems(items)[1..] == SortItems(items[1..]);
    }
  }

  ghost predicate NormalValues(ms: seq<Member>) {
    forall i :: 0 <= i < |ms| ==> Normal(ms[i].value)
  }

  lemma InsertNormal(m: Member, ms: seq<Member>)
    requires Normal(m.value) && NormalValues(ms)
    ensures NormalValues(Insert(m, ms))
  {
  }

  lemma {:induction false} SortMembersNormal(members: seq<Member>)
    requires DistinctKeys(members)
    requires forall i :: 0 <= i < |members| ==> WellFormed(members[i].value)
    ensures Sorted(SortMembers(members)) && NormalValues(SortMembers(members))
    ensures Entries(SortMembers(members)) == Entries(members)
    ensures Keys(SortMembers(members)) == Keys(members)
    decreases members, 0
  {
    if members != [] {
      var head, tail := members[0], members[1..];
      assert head.value < head;
      SortKeysNormal(head.value);
      DistinctHead(members);
      SortMembersNormal(tail);
      var m := Member(head.key, SortKeys(head.value));
      InsertSorted(m, SortMembers(tail));
      InsertNormal(m, SortMembers(tail));
    }
  }

  // ---------------------------------------------------------------------
  // Normal forms are unique
  // ---------------------------------------------------------------------

  lemma {:induction false} NormalUnique(a: Json, b: Json)
    requires Normal(a) && Normal(b) && Meaning(a) == Meaning(b)
    ensures a == b
    decreases a, 1
  {
    match a
    case Arr(items) => NormalItemsUnique(items, b.items);
    case Obj(members) => NormalMembersUnique(members, b.members);
    case _ =>
  }

  lemma {:induction false} NormalItemsUnique(xs: seq<Json>, ys: seq<Json>)
    requires forall i :: 0 <= i < |xs| ==> Normal(xs[i])
    requires forall i :: 0 <= i < |ys| ==> Normal(ys[i])
    requires ItemsMeaning(xs) == ItemsMeaning(ys)
    ensures xs == ys
    decreases xs, 0
  {
    assert |xs| == |ItemsMeaning(xs)| == |ItemsMeaning(ys)| == |ys|;
    if xs != [] {
      assert ItemsMeaning(xs)[0] == Meaning(xs[0]) && ItemsMeaning(ys)[0] == Meaning(ys[0]);
      assert ItemsMeaning(xs)[1..] == ItemsMeaning(xs[1..]) && ItemsMeaning(ys)[1..] == ItemsMeaning(ys[1..]);
      NormalUnique(xs[0], ys[0]);
      NormalItemsUnique(xs[1..], ys[1..]);
      assert xs == [xs[0]] + xs[1..] && ys == [ys[0]] + ys[1..];
    }
  }

  /** Two sorted member lists with the same keys have the same least key and the same other keys. */
  lemma SameLeastKey(xs: seq<Member>, ys: seq<Member>)
    requires Sorted(xs) && Sorted(ys) && Keys(xs) == Keys(ys) && xs != []
    ensures ys != [] && xs[0].key == ys[0].key
    ensures xs[0].key !in Keys(xs[1..]) && xs[0].key !in Keys(ys[1..])
  {
    var k := xs[0].key;
    assert k in Keys(ys);
    LessIrreflexive(k);
    if ys[0].key != k {
      LessTransitive(k, ys[0].key, k);
    }
  }

  lemma {:induction false} NormalMembersUnique(xs: seq<Member>, ys: seq<Member>)
    requires Sorted(xs) && Sorted(ys) && NormalValues(xs) && NormalValues(ys)
    requires Entries(xs) == Entries(ys)
    ensures xs == ys
    decreases xs, 0
  {
    EntriesKeys(xs);
    EntriesKeys(ys);
    if xs == [] {
      assert Keys(ys) == {};
    } else {
      SameLeastKey(xs, ys);
      assert xs[0].value < xs[0];
      NormalUnique(xs[0].value, ys[0].value);
      EntriesKeys(xs[1..]);
      EntriesKeys(ys[1..]);
      assert Entries(xs[1..]) == Entries(xs) - {xs[0].key};
      assert Entries(ys[1..]) == Entries(ys) - {xs[0].key};
      NormalMembersUnique(xs[1..], ys[1..]);
      assert xs == [xs[0]] + xs[1..] && ys == [ys[0]] + ys[1..];
    }
  }

  /** Two parameters share a dictionary key exactly when they are the same JSON value. */
  lemma CanonicalExactly(a: Json, b: Json)
    requires WellFormed(a) && WellFormed(b)
    ensures Canonicalize(a) == Canonicalize(b) <==> Meaning(a) == Meaning(b)
  {
    SortKeysNormal(a);
    SortKeysNormal(b);
    NormalWellFormed(SortKeys(a));
    NormalWellFormed(SortKeys(b));
    if Canonicalize(a) == Canonicalize(b) {
      PrintInjective(SortKeys(a), SortKeys(b));
    }
    if Meaning(a) == Meaning(b) {
      NormalUnique(SortKeys(a), SortKeys(b));
    }
  }
}
