/** Artifact bundles: named files and the manifest that completes them. */
module Bundles {
  import opened Basics
  import opened Json
  import opened JsonText
  import opened Frames
  import opened Protocol

  datatype Name = Name(text: Text)

  datatype Content = Content(bytes: Bytes)

  datatype File = File(name: Name, content: Content)

  // A directory of regular files.
  type Dir = map<Name, Content>

  // A hexadecimal SHA-256.
  datatype Checksum = Checksum(hex: Text)

  const MANIFEST: Name := Name(Lit("manifest.json"))

  function Hash(content: Content): Checksum { Checksum(Sha256(content.bytes)) }

  // `files` as write_immutable_bundle accepts it: distinct names, none of them the manifest's.
  predicate ValidFiles(files: seq<File>) {
    (forall i, j :: 0 <= i < j < |files| ==> files[i].name != files[j].name) &&
    (forall i :: 0 <= i < |files| ==> files[i].name != MANIFEST)
  }

  function Description(content: Content): Json {
    JObj([Member(Lit("length"), JInt(|content.bytes|)), Member(Lit("sha256"), JStr(Hash(content).hex))])
  }

  function Entries(files: seq<File>): (ms: seq<Member>)
    ensures |ms| == |files|
    ensures forall i :: 0 <= i < |ms| ==> ms[i] == Member(files[i].name.text, Description(files[i].content))
  {
    seq(|files|, i requires 0 <= i < |files| => Member(files[i].name.text, Description(files[i].content)))
  }

  /** The manifest of a bundle whose dict was filled in the order of `files`. */
  function Manifest(files: seq<File>): Content {
    Content(Payload(JObj([Member(Lit("files"), JObj(Entries(files)))])) + [10])
  }

  ghost predicate SameFiles(a: seq<File>, b: seq<File>) { forall f :: f in a <==> f in b }

  // The sorted entries of a bundle, ready to print.
  function SortedEntries(files: seq<File>): seq<Member> { SortEach(Entries(files)) }

  lemma SortedEntry(files: seq<File>, m: Member)
    ensures m in SortedEntries(files) <==> exists f :: f in files && m == Member(f.name.text, SortKeys(Description(f.content)))
  {
    hide Description, SortKeys;
    var ms := SortedEntries(files);
    if m in ms {
      var i :| 0 <= i < |ms| && ms[i] == m;
      assert files[i] in files;
    }
    if f :| f in files && m == Member(f.name.text, SortKeys(Description(f.content))) {
      var i :| 0 <= i < |files| && files[i] == f;
      assert ms[i] == m;
    }
  }

  /** The storage writer fills its dict in name order and the artifact verifier in item order;
      any two orders of the same files give the same manifest bytes. */
  lemma ManifestIgnoresOrder(a: seq<File>, b: seq<File>)
    requires ValidFiles(a) && ValidFiles(b) && SameFiles(a, b)
    ensures Manifest(a) == Manifest(b)
  {
    hide Description, MANIFEST, SortKeys;
    forall m ensures m in SortedEntries(a) <==> m in SortedEntries(b) {
      SortedEntry(a, m);
      SortedEntry(b, m);
    }
    SortIgnoresInsertionOrder(SortedEntries(a), SortedEntries(b));
    assert SortKeys(JObj(Entries(a))) == SortKeys(JObj(Entries(b))) by { SortKeysOfObject(a); SortKeysOfObject(b); }
    OneEntryDumps(Entries(a), Entries(b));
  }

  lemma SortKeysOfObject(files: seq<File>)
    ensures SortKeys(JObj(Entries(files))) == JObj(Sort(SortedEntries(files)))
  {
    hide Description;
  }

  lemma OneEntryDumps(a: seq<Member>, b: seq<Member>)
    requires SortKeys(JObj(a)) == SortKeys(JObj(b))
    ensures Payload(JObj([Member(Lit("files"), JObj(a))])) == Payload(JObj([Member(Lit("files"), JObj(b))]))
  {
    var x, y := [Member(Lit("files"), JObj(a))], [Member(Lit("files"), JObj(b))];
    assert SortEach(x) == SortEach(y);
    assert SortKeys(JObj(x)) == SortKeys(JObj(y));
    hide Print, SortKeys;
  }

  function Contents(files: seq<File>): Dir {
    if files == [] then map[]
    else Contents(files[..|files| - 1])[files[|files| - 1].name := files[|files| - 1].content]
  }

  /** The complete directory: every file and the manifest. */
  function Bundle(files: seq<File>): Dir {
    Contents(files)[MANIFEST := Manifest(files)]
  }

  lemma BundleHasManifest(files: seq<File>)
    ensures MANIFEST in Bundle(files) && Bundle(files)[MANIFEST] == Manifest(files)
  {
    hide Contents, Manifest, MANIFEST;
  }

  lemma {:induction false} ContentsHas(files: seq<File>, f: File)
    requires ValidFiles(files)
    ensures f in files <==> f.name in Contents(files) && Contents(files)[f.name] == f.content
    ensures MANIFEST !in Contents(files)
    ensures f.name in Contents(files) <==> exists i :: 0 <= i < |files| && files[i].name == f.name
  {
    if files != [] {
      var front := files[..|files| - 1];
      ContentsHas(front, f);
      assert files == front + [files[|files| - 1]];
    }
  }
}
