/** The canonical metadata dict behind a request fingerprint, and what equal bytes say about two of them. */
module Metadata {
  import opened Basics
  import opened Json
  import opened JsonText
  import opened Frames
  import Names
  import Wire

  datatype MetaField =
    | FingerprintVersion | ProtocolVersion | PlanningVersion | Provider | ProviderId | Exchange | Symbol | InstrumentType
    | Expiry | Strike | SnapshotDate | SnapshotHash | Interval | FromTimestamp | ToTimestamp | Continuous | OpenInterest

  function FieldName(f: MetaField): string {
    match f
    case FingerprintVersion => "fingerprint_schema_version"
    case ProtocolVersion => "protocol_version"
    case PlanningVersion => "planning_schema_version"
    case Provider => "provider"
    case ProviderId => "provider_instrument_id"
    case Exchange => "exchange"
    case Symbol => "tradingsymbol"
    case InstrumentType => "instrument_type"
    case Expiry => "expiry"
    case Strike => "strike"
    case SnapshotDate => "instrument_snapshot_date"
    case SnapshotHash => "instrument_snapshot_sha256"
    case Interval => "interval"
    case FromTimestamp => "from_timestamp"
    case ToTimestamp => "to_timestamp"
    case Continuous => "continuous"
    case OpenInterest => "oi"
  }

  ghost function FieldTag(f: MetaField): (t: (int, char, char))
    ensures Names.Tagged(FieldName(f), t.0, t.1, t.2)
  {
    match f
    case FingerprintVersion => (26, 'f', 'n')
    case ProtocolVersion => (16, 'p', 'n')
    case PlanningVersion => (23, 'p', 'n')
    case Provider => (8, 'p', 'r')
    case ProviderId => (22, 'p', 'd')
    case Exchange => (8, 'e', 'e')
    case Symbol => (13, 't', 'l')
    case InstrumentType => (15, 'i', 'e')
    case Expiry => (6, 'e', 'y')
    case Strike => (6, 's', 'e')
    case SnapshotDate => (24, 'i', 'e')
    case SnapshotHash => (26, 'i', '6')
    case Interval => (8, 'i', 'l')
    case FromTimestamp => (14, 'f', 'p')
    case ToTimestamp => (12, 't', 'p')
    case Continuous => (10, 'c', 's')
    case OpenInterest => (2, 'o', 'i')
  }

  function Key(f: MetaField): Text { Lit(FieldName(f)) }

  lemma TagInjective(f: MetaField, g: MetaField)
    requires FieldTag(f) == FieldTag(g)
    ensures f == g
  {
    hide FieldName;
  }

  lemma KeyInjective(f: MetaField, g: MetaField)
    ensures Key(f) == Key(g) <==> f == g
  {
    var s, t := FieldTag(f), FieldTag(g);
    hide FieldName, FieldTag;
    if Key(f) == Key(g) {
      Names.SameTag(FieldName(f), FieldName(g));
      TagInjective(f, g);
    }
  }

  // The dict as `_canonical_metadata` fills it.
  const META_FIELDS: seq<MetaField> :=
    [FingerprintVersion, ProtocolVersion, PlanningVersion, Provider, ProviderId, Exchange, Symbol, InstrumentType,
     Expiry, Strike, SnapshotDate, SnapshotHash, Interval, FromTimestamp, ToTimestamp, Continuous, OpenInterest]

  function Members(value: MetaField -> Json): (ms: seq<Member>)
    ensures |ms| == |META_FIELDS|
    ensures forall i :: 0 <= i < |ms| ==> ms[i] == Member(Key(META_FIELDS[i]), value(META_FIELDS[i]))
  {
    seq(|META_FIELDS|, i requires 0 <= i < |META_FIELDS| => Member(Key(META_FIELDS[i]), value(META_FIELDS[i])))
  }

  // A dict with those entries, filled in any order.
  ghost predicate DictOf(ms: seq<Member>, value: MetaField -> Json) {
    Distinct(ms) && SameEntries(ms, Members(value))
  }

  ghost function Position(f: MetaField): (i: nat)
    ensures i < |META_FIELDS| && META_FIELDS[i] == f
  {
    match f
    case FingerprintVersion => 0
    case ProtocolVersion => 1
    case PlanningVersion => 2
    case Provider => 3
    case ProviderId => 4
    case Exchange => 5
    case Symbol => 6
    case InstrumentType => 7
    case Expiry => 8
    case Strike => 9
    case SnapshotDate => 10
    case SnapshotHash => 11
    case Interval => 12
    case FromTimestamp => 13
    case ToTimestamp => 14
    case Continuous => 15
    case OpenInterest => 16
  }

  lemma EveryField(f: MetaField)
    ensures f in META_FIELDS
  {
    hide META_FIELDS;
    assert META_FIELDS[Position(f)] == f;
  }

  predicate Scalar(j: Json) { !j.JObj? }

  lemma DictEntry(ms: seq<Member>, value: MetaField -> Json, m: Member)
    requires DictOf(ms, value)
    ensures m in ms <==> exists f :: m == Member(Key(f), value(f))
  {
    hide META_FIELDS, Key;
    var all := Members(value);
    if m in ms {
      assert m in all;
      var i :| 0 <= i < |all| && all[i] == m;
      assert m == Member(Key(META_FIELDS[i]), value(META_FIELDS[i]));
    }
    if f :| m == Member(Key(f), value(f)) {
      EveryField(f);
      var i :| 0 <= i < |META_FIELDS| && META_FIELDS[i] == f;
      assert all[i] == m;
    }
  }

  lemma DictSound(ms: seq<Member>, value: MetaField -> Json)
    requires DictOf(ms, value) && forall f :: Scalar(value(f))
    ensures Sound(JObj(ms))
  {
    hide Key;
    forall i | 0 <= i < |ms| ensures !HasPair(ms[i].key) && Sound(ms[i].value) {
      DictEntry(ms, value, ms[i]);
      assert ms[i] in ms;
      var f :| ms[i] == Member(Key(f), value(f));
      KeyHasNoPair(f);
    }
  }

  lemma KeyHasNoPair(f: MetaField)
    ensures !HasPair(Key(f))
  {
    Wire.LiteralHasNoPair(FieldName(f));
  }

  lemma DictFind(ms: seq<Member>, value: MetaField -> Json, f: MetaField)
    requires DictOf(ms, value)
    ensures Find(ms, Key(f)) == Some(value(f))
  {
    hide Key;
    DictEntry(ms, value, Member(Key(f), value(f)));
    FindMember(ms, Key(f), value(f));
  }

  // What arrives under a key.
  lemma DictReceived(ms: seq<Member>, value: MetaField -> Json, f: MetaField)
    requires DictOf(ms, value) && forall g :: Scalar(value(g))
    ensures Find(Received(ms), Key(f)) == Some(JoinJson(value(f)))
  {
    hide Key, Received, JoinJson, META_FIELDS;
    DictSound(ms, value);
    DictFind(ms, value, f);
    ReceivedFind(ms, Key(f));
  }

  lemma {:induction false} SortedFind(a: seq<Member>, b: seq<Member>)
    requires Ascending(a) && Ascending(b)
    requires forall k :: Find(a, k) == Find(b, k)
    ensures a == b
  {
    AscendingDistinct(a);
    AscendingDistinct(b);
    forall m ensures m in a <==> m in b {
      FindMember(a, m.key, m.value);
      FindMember(b, m.key, m.value);
    }
    AscendingUnique(a, b);
  }

  lemma ReceivedAscending(ms: seq<Member>)
    requires Sound(JObj(ms))
    ensures Ascending(Received(ms))
  {
    SortAscending(SortEach(ms));
    SortSound(JObj(ms));
    JoinKeys(Sort(SortEach(ms)));
    hide Less, Sort, SortEach, Join;
  }

  lemma DumpsByReceived(a: seq<Member>, b: seq<Member>)
    requires Sound(JObj(a)) && Sound(JObj(b))
    ensures Dumps(JObj(a)) == Dumps(JObj(b)) <==> Received(a) == Received(b)
  {
    DumpsInjective(JObj(a), JObj(b));
    hide Dumps, Sort, SortEach, JoinMembers;
  }

  lemma FindNamed(ms: seq<Member>, value: MetaField -> Json, k: Text)
    requires DictOf(ms, value) && (forall g :: Scalar(value(g))) && Find(Received(ms), k).Some?
    ensures exists f :: Key(f) == k
  {
    hide Key, Received, JoinJson, META_FIELDS;
    DictSound(ms, value);
    ReceivedFind(ms, k);
    FindMember(ms, k, Find(ms, k).value);
    DictEntry(ms, value, Member(k, Find(ms, k).value));
  }

  /** Two metadata dicts, filled in any order, serialise to the same bytes exactly when every field agrees
      once surrogate pairs are fused. */
  lemma SameBytesIff(a: seq<Member>, x: MetaField -> Json, b: seq<Member>, y: MetaField -> Json)
    requires DictOf(a, x) && DictOf(b, y) && (forall f :: Scalar(x(f))) && forall f :: Scalar(y(f))
    ensures Dumps(JObj(a)) == Dumps(JObj(b)) <==> forall f :: JoinJson(x(f)) == JoinJson(y(f))
  {
    hide Key, Received, JoinJson, META_FIELDS, Dumps, Sound, DictOf, Scalar;
    DictSound(a, x);
    DictSound(b, y);
    DumpsByReceived(a, b);
    forall f ensures Find(Received(a), Key(f)) == Some(JoinJson(x(f))) && Find(Received(b), Key(f)) == Some(JoinJson(y(f))) {
      DictReceived(a, x, f);
      DictReceived(b, y, f);
    }
    if forall f :: JoinJson(x(f)) == JoinJson(y(f)) {
      forall k ensures Find(Received(a), k) == Find(Received(b), k) {
        if Find(Received(a), k).Some? { FindNamed(a, x, k); }
        if Find(Received(b), k).Some? { FindNamed(b, y, k); }
      }
      ReceivedAscending(a);
      ReceivedAscending(b);
      SortedFind(Received(a), Received(b));
    }
  }

  lemma FieldsDiffer(i: int, j: int)
    requires 0 <= i < j < |META_FIELDS|
    ensures META_FIELDS[i] != META_FIELDS[j]
  {
  }

  lemma MembersDict(value: MetaField -> Json)
    ensures DictOf(Members(value), value)
  {
    hide Key, META_FIELDS;
    var ms := Members(value);
    forall i, j | 0 <= i < j < |ms| ensures ms[i].key != ms[j].key {
      FieldsDiffer(i, j);
      KeyInjective(META_FIELDS[i], META_FIELDS[j]);
    }
  }
}
