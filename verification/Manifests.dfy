/** What a manifest says: read back, it names exactly the files of its bundle, each with its length and SHA-256. */
module Manifests {
  import opened Basics
  import opened Json
  import opened JsonText
  import opened Frames
  import opened Protocol
  import opened Bundles
  import Wire

  // The dict under "files", None for bytes that are no manifest.
  function ReadManifest(bytes: Bytes): Option<seq<Member>> {
    if bytes == [] || bytes[|bytes| - 1] != 10 then None
    else
      match Utf8(bytes[..|bytes| - 1])
      case None => None
      case Some(text) => FilesOf(Loads(text))
  }

  function FilesOf(j: Option<Json>): Option<seq<Member>> {
    if j.Some? && j.value.JObj? && |j.value.members| == 1 && j.value.members[0].key == Lit("files") && j.value.members[0].value.JObj?
    then Some(j.value.members[0].value.members) else None
  }

  // Names as JSON reads them back, still apart.
  predicate NamesApart(files: seq<File>) {
    forall i, j :: 0 <= i < j < |files| ==> Join(files[i].name.text) != Join(files[j].name.text)
  }

  // An entry with exactly the length and hash of this content.
  predicate Describes(j: Json, content: Content) {
    j.JObj? && Distinct(j.members) && Keys(j.members) == {Lit("length"), Lit("sha256")} &&
    Find(j.members, Lit("length")) == Some(JInt(|content.bytes|)) && Find(j.members, Lit("sha256")) == Some(JStr(Sha256(content.bytes)))
  }

  predicate Listed(entries: seq<Member>, f: File) {
    Find(entries, Join(f.name.text)).Some? && Describes(Find(entries, Join(f.name.text)).value, f.content)
  }

  // The entries are the files: every file has its entry, and there is no other.
  ghost predicate Lists(entries: seq<Member>, files: seq<File>) {
    Distinct(entries) && |entries| == |files| && (forall i :: 0 <= i < |files| ==> Listed(entries, files[i])) &&
    (forall k :: k in Keys(entries) ==> exists i :: 0 <= i < |files| && Join(files[i].name.text) == k)
  }

  /* ---------- one entry ---------- */

  // A description as it is read back.
  function Entry(content: Content): Json { JoinJson(SortKeys(Description(content))) }

  const LENGTH: Text := Lit("length")
  const SHA: Text := Lit("sha256")

  lemma KeyTexts()
    ensures LENGTH != SHA && !HasPair(LENGTH) && !HasPair(SHA)
  {
    Wire.LiteralHasNoPair("length");
    Wire.LiteralHasNoPair("sha256");
    assert LENGTH[0] == 108 && SHA[0] == 115;
  }

  lemma HexJoins(hex: Text)
    requires HexDigest(hex)
    ensures Join(hex) == hex
  {
    JoinIdentity(hex);
  }

  lemma TwoMembers(a: Member, b: Member)
    requires a.key != b.key && !HasPair(a.key) && !HasPair(b.key) && Sound(a.value) && Sound(b.value)
    ensures Distinct([a, b]) && Sound(JObj([a, b])) && Keys([a, b]) == {a.key, b.key}
    ensures Find([a, b], a.key) == Some(a.value) && Find([a, b], b.key) == Some(b.value)
  {
    hide HasPair;
    FindMember([a, b], a.key, a.value);
    FindMember([a, b], b.key, b.value);
    assert a in [a, b] && b in [a, b];
    assert [a, b][0].key == a.key && [a, b][1].key == b.key;
  }

  lemma DescriptionIs(content: Content)
    ensures Description(content) == JObj([Member(LENGTH, JInt(|content.bytes|)), Member(SHA, JStr(Sha256(content.bytes)))])
  {
    hide Lit;
  }

  lemma EntryDescribes(content: Content)
    ensures Describes(Entry(content), content) && Sound(Entry(content))
  {
    var length, sha := Member(LENGTH, JInt(|content.bytes|)), Member(SHA, JStr(Sha256(content.bytes)));
    KeyTexts();
    DescriptionIs(content);
    HexJoins(Sha256(content.bytes));
    hide Lit, LENGTH, SHA, HasPair, Describes, Description;
    TwoMembers(length, sha);
    ReceivedFind([length, sha], LENGTH);
    ReceivedFind([length, sha], SHA);
    EntryIs(content, [length, sha]);
    EntrySound([length, sha]);
    DescribesIs(Entry(content), content);
  }

  lemma DescribesIs(j: Json, content: Content)
    requires j.JObj? && Distinct(j.members) && Keys(j.members) == {LENGTH, SHA}
    requires Find(j.members, LENGTH) == Some(JInt(|content.bytes|)) && Find(j.members, SHA) == Some(JStr(Sha256(content.bytes)))
    ensures Describes(j, content)
  {
    hide Lit, Distinct, Find, Keys;
  }

  lemma EntryIs(content: Content, ms: seq<Member>)
    requires Description(content) == JObj(ms)
    ensures Entry(content) == JObj(Received(ms))
  {
    hide Description, SortEach, Sort;
  }

  lemma EntrySound(ms: seq<Member>)
    requires Sound(JObj(ms)) && forall m :: m in ms ==> !m.value.JObj?
    ensures Sound(JObj(Received(ms)))
  {
    hide HasPair, Join, Sort, SortEach, JoinMembers;
    ReceivedFind(ms, []);
    SortSound(JObj(ms));
    JoinKeys(Sort(SortEach(ms)));
    forall i | 0 <= i < |Received(ms)| ensures !HasPair(Received(ms)[i].key) && Sound(Received(ms)[i].value) { FlatSound(ms, i); }
  }

  lemma FlatSound(ms: seq<Member>, i: int)
    requires Sound(JObj(Sort(SortEach(ms)))) && 0 <= i < |Received(ms)| && forall m :: m in ms ==> !m.value.JObj?
    ensures !HasPair(Received(ms)[i].key) && Sound(Received(ms)[i].value)
  {
    hide HasPair, Join, Sort, SortEach, SortKeys;
    var each := SortEach(ms);
    JoinKeys(Sort(each));
    assert Sort(each)[i] in Sort(each);
    InMultiset(Sort(each), each, Sort(each)[i]);
    var k :| 0 <= k < |each| && each[k] == Sort(each)[i];
    assert ms[k] in ms;
  }

  /* ---------- all entries ---------- */

  // The entries as they are read back.
  function ReadEntries(files: seq<File>): seq<Member> { JoinMembers(Sort(SortedEntries(files))) }

  lemma SortedKeyAt(files: seq<File>, i: int)
    requires 0 <= i < |files|
    ensures |SortedEntries(files)| == |files|
    ensures SortedEntries(files)[i] == Member(files[i].name.text, SortKeys(Description(files[i].content)))
  {
    hide Description, SortKeys;
  }

  lemma SortedDistinct(files: seq<File>)
    requires NamesApart(files)
    ensures Distinct(SortedEntries(files)) && Distinct(Sort(SortedEntries(files))) && |Sort(SortedEntries(files))| == |files|
  {
    hide SortedEntries, Sort, Join;
    var each := SortedEntries(files);
    assert |each| == |files| by { SortedLength(files); }
    forall i, j | 0 <= i < j < |each| ensures each[i].key != each[j].key {
      SortedKeyAt(files, i);
      SortedKeyAt(files, j);
    }
    SortDistinct(each);
  }

  lemma SortedLength(files: seq<File>)
    ensures |SortedEntries(files)| == |files|
  {
    hide Description, SortKeys;
  }

  // Where the k-th entry that is read back comes from.
  lemma Origin(files: seq<File>, k: int) returns (i: int)
    requires NamesApart(files) && 0 <= k < |Sort(SortedEntries(files))|
    ensures 0 <= i < |files| && Sort(SortedEntries(files))[k] == SortedEntries(files)[i]
    ensures ReadEntries(files)[k] == Member(Join(files[i].name.text), Entry(files[i].content))
  {
    hide SortedEntries, Sort, Join, Description, SortKeys, JoinJson;
    var each := SortedEntries(files);
    SortedLength(files);
    var m := Sort(each)[k];
    assert m in Sort(each);
    InMultiset(Sort(each), each, m);
    i :| 0 <= i < |each| && each[i] == m;
    SortedKeyAt(files, i);
  }

  lemma ReadDistinct(files: seq<File>)
    requires NamesApart(files)
    ensures Distinct(ReadEntries(files)) && |ReadEntries(files)| == |files|
  {
    hide SortedEntries, Sort, Join, Entry;
    SortedDistinct(files);
    var ms := ReadEntries(files);
    forall x, y | 0 <= x < y < |ms| ensures ms[x].key != ms[y].key {
      var i := Origin(files, x);
      var j := Origin(files, y);
      assert Sort(SortedEntries(files))[x].key != Sort(SortedEntries(files))[y].key;
      if i < j { assert Join(files[i].name.text) != Join(files[j].name.text); } else { assert Join(files[j].name.text) != Join(files[i].name.text); }
    }
  }

  lemma ReadHas(files: seq<File>, i: int)
    requires NamesApart(files) && 0 <= i < |files|
    ensures Member(Join(files[i].name.text), Entry(files[i].content)) in ReadEntries(files)
  {
    hide SortedEntries, Sort, Join, Entry;
    var each := SortedEntries(files);
    SortedLength(files);
    assert each[i] in each;
    InMultiset(Sort(each), each, each[i]);
    var k :| 0 <= k < |Sort(each)| && Sort(each)[k] == each[i];
    var o := Origin(files, k);
    SortedDistinct(files);
    assert each[o].key == each[i].key && o == i;
    assert ReadEntries(files)[k] in ReadEntries(files);
  }

  lemma ReadLists(files: seq<File>)
    requires NamesApart(files)
    ensures Lists(ReadEntries(files), files) && Sound(JObj(ReadEntries(files)))
  {
    hide SortedEntries, Sort, Join, Entry, Describes, ReadEntries, HasPair, NamesApart;
    var ms := ReadEntries(files);
    ReadDistinct(files);
    forall i | 0 <= i < |files| ensures Listed(ms, files[i]) {
      ReadHas(files, i);
      EntryDescribes(files[i].content);
      FindMember(ms, Join(files[i].name.text), Entry(files[i].content));
    }
    forall k | 0 <= k < |ms|
      ensures !HasPair(ms[k].key) && Sound(ms[k].value) && exists i :: 0 <= i < |files| && Join(files[i].name.text) == ms[k].key
    {
      ReadLength(files);
      var i := Origin(files, k);
      JoinTwice(files[i].name.text);
      EntryDescribes(files[i].content);
      assert Join(files[i].name.text) == ms[k].key;
    }
    forall k | k in Keys(ms) ensures exists i :: 0 <= i < |files| && Join(files[i].name.text) == k {
      var m :| m in ms && m.key == k;
      var x :| 0 <= x < |ms| && ms[x] == m;
    }
  }

  lemma ReadLength(files: seq<File>)
    ensures |ReadEntries(files)| == |Sort(SortedEntries(files))|
  {
    hide SortedEntries, Sort;
  }

  /* ---------- the manifest ---------- */

  const FILES: Text := Lit("files")

  lemma FilesText()
    ensures Join(FILES) == FILES && !HasPair(FILES)
  {
    Wire.LiteralHasNoPair("files");
    JoinIdentity(FILES);
  }

  // The value whose text the manifest holds.
  function Sorted(files: seq<File>): Json { JObj([Member(FILES, JObj(Sort(SortedEntries(files))))]) }

  lemma ManifestText(files: seq<File>)
    ensures Ascii(Print(Sorted(files))) && Manifest(files).bytes == ToBytes(Print(Sorted(files))) + [10]
  {
    hide Print, Lit;
    var j := JObj([Member(FILES, JObj(Entries(files)))]);
    DumpsAscii(j);
    assert SortKeys(j) == Sorted(files) by {
      OneMember(Member(FILES, JObj(Entries(files))));
      SortKeysOfObject(files);
    }
  }

  lemma OneMember(m: Member)
    ensures SortKeys(JObj([m])) == JObj([Member(m.key, SortKeys(m.value))])
  {
    var each := SortEach([m]);
    assert each == [Member(m.key, SortKeys(m.value))];
    assert Sort(each[1..]) == [];
    assert Sort(each) == each;
  }

  lemma SortedReads(files: seq<File>)
    requires NamesApart(files)
    ensures Loads(Print(Sorted(files))) == Some(JObj([Member(FILES, JObj(ReadEntries(files)))]))
  {
    hide Print, Loads, Lit, FILES, HasPair, SortedEntries, Sort, Join, Lists;
    ReadLists(files);
    FilesText();
    var read := JObj([Member(FILES, JObj(ReadEntries(files)))]);
    assert JoinJson(Sorted(files)) == read by { JoinSorted(files); }
    assert Sound(read) by { OneSound(Member(FILES, JObj(ReadEntries(files)))); }
    LoadsPrint(Sorted(files));
  }

  lemma JoinSorted(files: seq<File>)
    requires Join(FILES) == FILES
    ensures JoinJson(Sorted(files)) == JObj([Member(FILES, JObj(ReadEntries(files)))])
  {
    hide Join, Sort, SortedEntries, FILES;
    var ms := [Member(FILES, JObj(Sort(SortedEntries(files))))];
    assert JoinMembers(ms) == [Member(FILES, JObj(ReadEntries(files)))];
  }

  lemma OneSound(m: Member)
    requires !HasPair(m.key) && Sound(m.value)
    ensures Sound(JObj([m]))
  {
    hide HasPair;
  }

  lemma LastByte(b: Bytes)
    ensures (b + [10])[|b + [10]| - 1] == 10 && (b + [10])[..|b + [10]| - 1] == b
  {
  }

  /** The bytes of a manifest, without the final newline, are JSON that reads back as an object whose one entry, "files", maps
      exactly the names of the bundle's files (as JSON keeps them) to each file's length and SHA-256. */
  lemma ManifestReads(files: seq<File>)
    requires NamesApart(files)
    ensures ReadManifest(Manifest(files).bytes).Some? && Lists(ReadManifest(Manifest(files).bytes).value, files)
  {
    hide Manifest, Print, Loads, Utf8, ToBytes, Lists, ReadEntries, Sorted;
    ManifestText(files);
    SortedReads(files);
    ReadLists(files);
    LastByte(ToBytes(Print(Sorted(files))));
    Utf8Ascii(Print(Sorted(files)));
    FilesOfOne(ReadEntries(files));
    hide FilesOf;
  }

  lemma FilesOfOne(ms: seq<Member>)
    ensures FilesOf(Some(JObj([Member(FILES, JObj(ms))]))) == Some(ms)
  {
    hide Lit;
  }

  /* ---------- equal manifests ---------- */

  // The same name, length and hash.
  predicate Alike(f: File, g: File) {
    Join(f.name.text) == Join(g.name.text) && |f.content.bytes| == |g.content.bytes| && Sha256(f.content.bytes) == Sha256(g.content.bytes)
  }

  predicate InBundle(f: File, files: seq<File>) { exists j :: 0 <= j < |files| && Alike(f, files[j]) }

  predicate Covers(a: seq<File>, b: seq<File>) { forall i :: 0 <= i < |a| ==> InBundle(a[i], b) }

  lemma ListedOnce(entries: seq<Member>, a: seq<File>, b: seq<File>, i: int) returns (j: int)
    requires Lists(entries, a) && Lists(entries, b) && 0 <= i < |a|
    ensures 0 <= j < |b| && Alike(a[i], b[j])
  {
    hide Join, Distinct, Find;
    assert Listed(entries, a[i]);
    FindMember(entries, Join(a[i].name.text), Find(entries, Join(a[i].name.text)).value);
    j :| 0 <= j < |b| && Join(b[j].name.text) == Join(a[i].name.text);
    assert Listed(entries, b[j]);
  }

  lemma ListedTwice(entries: seq<Member>, a: seq<File>, b: seq<File>)
    requires Lists(entries, a) && Lists(entries, b)
    ensures Covers(a, b)
  {
    hide Lists, Alike;
    forall i | 0 <= i < |a| ensures InBundle(a[i], b) { var j := ListedOnce(entries, a, b, i); }
  }

  /** Two bundles with the same manifest have the same number of files, and the same names, lengths and hashes. */
  lemma EqualManifests(a: seq<File>, b: seq<File>)
    requires NamesApart(a) && NamesApart(b) && Manifest(a) == Manifest(b)
    ensures |a| == |b| && Covers(a, b) && Covers(b, a)
  {
    hide Manifest, ReadManifest, Covers, Listed;
    ManifestReads(a);
    ManifestReads(b);
    ListedTwice(ReadManifest(Manifest(a).bytes).value, a, b);
    ListedTwice(ReadManifest(Manifest(a).bytes).value, b, a);
  }

  // No name holds a surrogate pair, as no name on a file system does.
  ghost predicate PlainNames(files: seq<File>) { forall i :: 0 <= i < |files| ==> !HasPair(files[i].name.text) }

  lemma PlainApart(files: seq<File>)
    requires ValidFiles(files) && PlainNames(files)
    ensures NamesApart(files)
  {
    hide HasPair, Join, MANIFEST;
    forall i, j | 0 <= i < j < |files| ensures Join(files[i].name.text) != Join(files[j].name.text) {
      JoinIdentity(files[i].name.text);
      JoinIdentity(files[j].name.text);
      assert files[i].name != files[j].name;
    }
  }

  lemma CoveredEntry(a: seq<File>, b: seq<File>, m: Member)
    requires PlainNames(a) && PlainNames(b) && Covers(a, b) && m in SortedEntries(a)
    ensures m in SortedEntries(b)
  {
    hide HasPair, Join, SortedEntries, SortKeys, Description;
    SortedEntry(a, m);
    SortedEntry(b, m);
    var f :| f in a && m == Member(f.name.text, SortKeys(Description(f.content)));
    var i :| 0 <= i < |a| && a[i] == f;
    assert InBundle(a[i], b);
    var j :| 0 <= j < |b| && Alike(a[i], b[j]);
    JoinIdentity(f.name.text);
    JoinIdentity(b[j].name.text);
    DescriptionIs(f.content);
    DescriptionIs(b[j].content);
    assert b[j] in b;
  }

  /** Manifests are equal exactly when the files agree in names, lengths and hashes, in whatever order they come. */
  lemma EqualManifestsIff(a: seq<File>, b: seq<File>)
    requires ValidFiles(a) && ValidFiles(b) && PlainNames(a) && PlainNames(b)
    ensures Manifest(a) == Manifest(b) <==> Covers(a, b) && Covers(b, a)
  {
    hide Manifest, Covers, SortedEntries, ValidFiles, PlainNames, SortKeys;
    PlainApart(a);
    PlainApart(b);
    if Manifest(a) == Manifest(b) { EqualManifests(a, b); }
    if Covers(a, b) && Covers(b, a) {
      forall m ensures m in SortedEntries(a) <==> m in SortedEntries(b) {
        if m in SortedEntries(a) { CoveredEntry(a, b, m); }
        if m in SortedEntries(b) { CoveredEntry(b, a, m); }
      }
      SortedDistinct(a);
      SortedDistinct(b);
      SortIgnoresInsertionOrder(SortedEntries(a), SortedEntries(b));
      ManifestText(a);
      ManifestText(b);
    }
  }
}
