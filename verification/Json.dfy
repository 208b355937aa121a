/**
 The JSON dialect every durable byte of the pipeline goes through: `json.dumps` with
 `ensure_ascii=True`, `sort_keys=True`, `separators=(",", ":")`, and `json.loads` with an
 `object_pairs_hook` that refuses duplicate keys (RFC 8259, sections 4 to 7).
 Value shapes: null, booleans, integers, strings and objects.
 */
module Json {
  import opened Basics

  datatype Json = JNull | JBool(b: bool) | JInt(n: int) | JStr(text: Text) | JObj(members: seq<Member>)

  // One dict entry; a dict is the sequence of its entries in insertion order.
  datatype Member = Member(key: Text, value: Json)

  /* ---------- dicts ---------- */

  function Keys(ms: seq<Member>): set<Text> { set m | m in ms :: m.key }

  predicate Distinct(ms: seq<Member>) {
    forall i, j :: 0 <= i < j < |ms| ==> ms[i].key != ms[j].key
  }

  function Find(ms: seq<Member>, key: Text): Option<Json> {
    if ms == [] then None
    else if ms[0].key == key then Some(ms[0].value)
    else Find(ms[1..], key)
  }

  lemma {:induction false} FindMember(ms: seq<Member>, key: Text, value: Json)
    requires Distinct(ms)
    ensures Find(ms, key) == Some(value) <==> Member(key, value) in ms
    ensures Find(ms, key).None? <==> key !in Keys(ms)
  {
    if ms != [] {
      FindMember(ms[1..], key, value);
      assert ms == [ms[0]] + ms[1..];
      if ms[0].key == key {
        assert forall m :: m in ms[1..] ==> m.key != key;
        assert ms[0] in ms;
      } else {
        assert Keys(ms) == {ms[0].key} + Keys(ms[1..]);
      }
    }
  }

  /* ---------- sort_keys ---------- */

  function Insert(m: Member, ms: seq<Member>): (r: seq<Member>)
    ensures multiset(r) == multiset{m} + multiset(ms)
  {
    if ms == [] || !Less(ms[0].key, m.key) then [m] + ms
    else
      var r := [ms[0]] + Insert(m, ms[1..]);
      assert ms == [ms[0]] + ms[1..];
      r
  }

  function Sort(ms: seq<Member>): (r: seq<Member>)
    ensures multiset(r) == multiset(ms)
    ensures |r| == |ms|
  {
    if ms == [] then [] else
      var r := Insert(ms[0], Sort(ms[1..]));
      assert ms == [ms[0]] + ms[1..];
      assert |multiset(r)| == |r| && |multiset(ms)| == |ms|;
      r
  }

  ghost predicate Ascending(ms: seq<Member>) {
    forall i, j :: 0 <= i < j < |ms| ==> Less(ms[i].key, ms[j].key)
  }

  lemma InMultiset<T>(a: seq<T>, b: seq<T>, x: T)
    requires multiset(a) == multiset(b)
    ensures x in a <==> x in b
  {
    assert x in a <==> x in multiset(a);
    assert x in b <==> x in multiset(b);
  }

  lemma {:induction false} InsertAscending(m: Member, ms: seq<Member>)
    requires Ascending(ms) && m.key !in Keys(ms)
    ensures Ascending(Insert(m, ms))
  {
    if ms == [] {
    } else if !Less(ms[0].key, m.key) {
      LessTotal(ms[0].key, m.key);
      assert ms[0] in ms;
      forall j | 0 <= j < |ms| ensures Less(m.key, ms[j].key) {
        if j > 0 { LessTransitive(m.key, ms[0].key, ms[j].key); }
      }
    } else {
      var r := Insert(m, ms[1..]);
      assert Keys(ms[1..]) <= Keys(ms);
      InsertAscending(m, ms[1..]);
      forall j | 0 <= j < |r| ensures Less(ms[0].key, r[j].key) {
        assert r[j] in multiset(r);
        assert r[j] == m || r[j] in multiset(ms[1..]);
        if r[j] != m {
          assert r[j] in ms[1..];
          var k :| 0 <= k < |ms| - 1 && ms[1..][k] == r[j];
          assert ms[k + 1] == r[j];
        }
      }
    }
  }

  lemma {:induction false} SortAscending(ms: seq<Member>)
    requires Distinct(ms)
    ensures Ascending(Sort(ms))
  {
    if ms != [] {
      SortAscending(ms[1..]);
      forall m | m in Sort(ms[1..]) ensures m.key != ms[0].key {
        InMultiset(Sort(ms[1..]), ms[1..], m);
      }
      InsertAscending(ms[0], Sort(ms[1..]));
    }
  }

  lemma AscendingDistinct(ms: seq<Member>)
    requires Ascending(ms)
    ensures Distinct(ms)
  {
    forall i, j | 0 <= i < j < |ms| ensures ms[i].key != ms[j].key {
      LessTotal(ms[i].key, ms[j].key);
    }
  }

  ghost predicate SameEntries(a: seq<Member>, b: seq<Member>) { forall m :: m in a <==> m in b }

  lemma AscendingHead(a: seq<Member>, b: seq<Member>)
    requires Ascending(a) && Ascending(b) && SameEntries(a, b) && a != []
    ensures b != [] && a[0] == b[0]
  {
    assert a[0] in a;
    assert b[0] in b;
    var i :| 0 <= i < |b| && b[i] == a[0];
    var j :| 0 <= j < |a| && a[j] == b[0];
    LessTotal(a[0].key, b[0].key);
  }

  // Two ascending sequences with the same entries are the same sequence.
  lemma {:induction false} AscendingUnique(a: seq<Member>, b: seq<Member>)
    requires Ascending(a) && Ascending(b) && SameEntries(a, b)
    ensures a == b
  {
    if a == [] {
      if b != [] { AscendingHead(b, a); }
    } else {
      AscendingHead(a, b);
      AscendingDistinct(a);
      AscendingDistinct(b);
      HeadTail(a);
      HeadTail(b);
      forall m ensures m in a[1..] <==> m in b[1..] {
        assert m in a <==> m == a[0] || m in a[1..];
        assert m in b <==> m == b[0] || m in b[1..];
      }
      AscendingUnique(a[1..], b[1..]);
    }
  }

  lemma SortDistinct(ms: seq<Member>)
    requires Distinct(ms)
    ensures Distinct(Sort(ms)) && Keys(Sort(ms)) == Keys(ms)
    ensures forall k :: Find(Sort(ms), k) == Find(ms, k)
  {
    SortAscending(ms);
    AscendingDistinct(Sort(ms));
    forall k ensures Find(Sort(ms), k) == Find(ms, k) && (k in Keys(Sort(ms)) <==> k in Keys(ms)) {
      forall v ensures Find(Sort(ms), k) == Some(v) <==> Find(ms, k) == Some(v) {
        FindMember(ms, k, v);
        FindMember(Sort(ms), k, v);
        InMultiset(Sort(ms), ms, Member(k, v));
      }
      FindMember(ms, k, JNull);
      FindMember(Sort(ms), k, JNull);
      if Find(ms, k).Some? {
        assert Find(Sort(ms), k) == Some(Find(ms, k).value);
      }
    }
  }

  /** `sort_keys` makes the result independent of the order in which the dict was filled. */
  lemma SortIgnoresInsertionOrder(a: seq<Member>, b: seq<Member>)
    requires Distinct(a) && Distinct(b)
    ensures SameEntries(a, b) <==> Sort(a) == Sort(b)
  {
    SortAscending(a);
    SortAscending(b);
    forall m ensures (m in Sort(a) <==> m in a) && (m in Sort(b) <==> m in b) {
      InMultiset(Sort(a), a, m);
      InMultiset(Sort(b), b, m);
    }
    if SameEntries(a, b) { AscendingUnique(Sort(a), Sort(b)); }
  }

  function SortKeys(j: Json): (r: Json)
    ensures r.JObj? <==> j.JObj?
    ensures !j.JObj? ==> r == j
    decreases j, 0
  {
    if j.JObj? then JObj(Sort(SortEach(j.members))) else j
  }

  function SortEach(ms: seq<Member>): (r: seq<Member>)
    ensures |r| == |ms| && forall i :: 0 <= i < |ms| ==> r[i].key == ms[i].key
    ensures forall i :: 0 <= i < |ms| ==> r[i].value == SortKeys(ms[i].value)
    decreases ms, 1
  {
    seq(|ms|, i requires 0 <= i < |ms| => Member(ms[i].key, SortKeys(ms[i].value)))
  }
}
