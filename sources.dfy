/**
  The source files of a package (src/sources.rs): a map from path to the
  file's bytes, ordered by path, so that the hash items it yields come in
  ascending path order and depend only on its contents.

  The `BTreeMap` is modelled as a list of entries strictly sorted by
  `PathLess`, the component-wise order of `PathBuf`.
 */
module Sources {
  import opened Maybe
  import opened Errors
  import opened Paths

  type Bytes = seq<bv8>

  datatype Entry = Entry(path: Path, bytes: Bytes)

  // ----- The sorted association list -----

  /** Strictly ascending paths: the shape of a `BTreeMap`'s entries. */
  predicate StrictlySorted(es: seq<Entry>)
  {
    forall i, j :: 0 <= i < j < |es| ==> PathLess(es[i].path, es[j].path)
  }

  function Keys(es: seq<Entry>): set<Path>
  {
    if es == [] then {} else {es[0].path} + Keys(es[1..])
  }

  /** The map an entry list stands for (on a sorted list every path occurs once). */
  function ToMap(es: seq<Entry>): (m: map<Path, Bytes>)
    ensures m.Keys == Keys(es)
  {
    if es == [] then map[] else ToMap(es[1..])[es[0].path := es[0].bytes]
  }

  lemma {:induction false} KeysMember(es: seq<Entry>, path: Path)
    ensures path in Keys(es) <==> exists i :: 0 <= i < |es| && es[i].path == path
  {
    if es != [] {
      KeysMember(es[1..], path);
      if path in Keys(es[1..]) {
        var i :| 0 <= i < |es[1..]| && es[1..][i].path == path;
        assert es[i + 1].path == path;
      }
      if exists i :: 0 <= i < |es| && es[i].path == path {
        var i :| 0 <= i < |es| && es[i].path == path;
        if i > 0 {
          assert es[1..][i - 1].path == path;
        }
      }
    }
  }

  lemma KeysHoldEveryPath(es: seq<Entry>)
    ensures forall i :: 0 <= i < |es| ==> es[i].path in Keys(es)
  {
    forall i | 0 <= i < |es|
      ensures es[i].path in Keys(es)
    {
      KeysMember(es, es[i].path);
    }
  }

  lemma {:induction false} KeysAppend(a: seq<Entry>, b: seq<Entry>)
    ensures Keys(a + b) == Keys(a) + Keys(b)
  {
    if a == [] {
      assert a + b == b;
    } else {
      assert (a + b)[1..] == a[1..] + b;
      KeysAppend(a[1..], b);
    }
  }

  /** In a sorted list the head comes before every other path. */
  lemma HeadIsLeast(es: seq<Entry>)
    requires StrictlySorted(es) && es != []
    ensures forall p :: p in Keys(es[1..]) ==> PathLess(es[0].path, p)
    ensures es[0].path !in Keys(es[1..])
    ensures StrictlySorted(es[1..])
  {
    forall p | p in Keys(es[1..])
      ensures PathLess(es[0].path, p)
    {
      KeysMember(es[1..], p);
      var j :| 0 <= j < |es[1..]| && es[1..][j].path == p;
      assert es[j + 1].path == p;
    }
    PathLessIrreflexive(es[0].path);
  }

  /** A path before every key extends a sorted list at the front. */
  lemma ConsSorted(e: Entry, es: seq<Entry>)
    requires StrictlySorted(es)
    requires forall p :: p in Keys(es) ==> PathLess(e.path, p)
    ensures StrictlySorted([e] + es)
  {
    KeysHoldEveryPath(es);
    var r := [e] + es;
    forall i, j | 0 <= i < j < |r|
      ensures PathLess(r[i].path, r[j].path)
    {
      assert r[j] == es[j - 1];
      if i > 0 {
        assert r[i] == es[i - 1];
      }
    }
  }

  /** `BTreeMap::insert` on the entry list. */
  function Insert(es: seq<Entry>, path: Path, bytes: Bytes): (r: seq<Entry>)
    requires StrictlySorted(es)
    ensures StrictlySorted(r)
    ensures Keys(r) == Keys(es) + {path}
  {
    if es == [] then [Entry(path, bytes)]
    else
      HeadIsLeast(es);
      if es[0].path == path then
        assert ([Entry(path, bytes)] + es[1..])[1..] == es[1..];
        ConsSorted(Entry(path, bytes), es[1..]);
        [Entry(path, bytes)] + es[1..]
      else if PathLess(path, es[0].path) then
        assert ([Entry(path, bytes)] + es)[1..] == es;
        forall p | p in Keys(es)
          ensures PathLess(path, p)
        {
          if p != es[0].path {
            PathLessTransitive(path, es[0].path, p);
          }
        }
        ConsSorted(Entry(path, bytes), es);
        [Entry(path, bytes)] + es
      else
        PathLessTotal(path, es[0].path);
        var rest := Insert(es[1..], path, bytes);
        assert ([es[0]] + rest)[1..] == rest;
        ConsSorted(es[0], rest);
        [es[0]] + rest
  }

  /** The three places `Insert` can put a path: over the head, before it, or further on. */
  lemma InsertShape(es: seq<Entry>, path: Path, bytes: Bytes)
    requires StrictlySorted(es) && es != []
    ensures StrictlySorted(es[1..])
    ensures es[0].path == path ==> Insert(es, path, bytes) == [Entry(path, bytes)] + es[1..]
    ensures PathLess(path, es[0].path) ==> Insert(es, path, bytes) == [Entry(path, bytes)] + es
    ensures es[0].path != path && !PathLess(path, es[0].path) ==>
              Insert(es, path, bytes) == [es[0]] + Insert(es[1..], path, bytes)
  {
    HeadIsLeast(es);
    PathLessIrreflexive(path);
  }

  /** Inserting sets the value of one path and keeps every other. */
  lemma {:induction false} InsertContents(es: seq<Entry>, path: Path, bytes: Bytes)
    requires StrictlySorted(es)
    ensures ToMap(Insert(es, path, bytes)) == ToMap(es)[path := bytes]
  {
    if es != [] {
      InsertShape(es, path, bytes);
      var e := Entry(path, bytes);
      if es[0].path == path {
        ReplaceHead(es, e);
      } else if PathLess(path, es[0].path) {
        ToMapCons(e, es);
      } else {
        InsertContents(es[1..], path, bytes);
        ConsAfterUpdate(es, Insert(es[1..], path, bytes), path, bytes);
      }
    }
  }

  /** Replacing the head entry by one with the same path updates that path. */
  lemma ReplaceHead(es: seq<Entry>, e: Entry)
    requires es != [] && es[0].path == e.path
    ensures ToMap([e] + es[1..]) == ToMap(es)[e.path := e.bytes]
  {
    ToMapCons(e, es[1..]);
  }

  /** Putting the head back in front of an updated tail updates the whole list. */
  lemma ConsAfterUpdate(es: seq<Entry>, r: seq<Entry>, path: Path, bytes: Bytes)
    requires es != [] && es[0].path != path
    requires ToMap(r) == ToMap(es[1..])[path := bytes]
    ensures ToMap([es[0]] + r) == ToMap(es)[path := bytes]
  {
    ToMapCons(es[0], r);
  }

  lemma ToMapCons(e: Entry, es: seq<Entry>)
    ensures ToMap([e] + es) == ToMap(es)[e.path := e.bytes]
  {
    assert ([e] + es)[1..] == es;
  }

  /** `BTreeMap::remove` on the entry list. */
  function Delete(es: seq<Entry>, path: Path): (r: seq<Entry>)
    requires StrictlySorted(es)
    ensures StrictlySorted(r)
    ensures Keys(r) == Keys(es) - {path}
  {
    if es == [] then []
    else
      HeadIsLeast(es);
      if es[0].path == path then es[1..]
      else
        var rest := Delete(es[1..], path);
        assert ([es[0]] + rest)[1..] == rest;
        ConsSorted(es[0], rest);
        [es[0]] + rest
  }

  /** Deleting drops one path and keeps every other. */
  lemma {:induction false} DeleteContents(es: seq<Entry>, path: Path)
    requires StrictlySorted(es)
    ensures ToMap(Delete(es, path)) == ToMap(es) - {path}
  {
    if es != [] {
      HeadIsLeast(es);
      if es[0].path != path {
        DeleteContents(es[1..], path);
        assert Delete(es, path)[1..] == Delete(es[1..], path);
      }
    }
  }

  /** Two sorted lists standing for the same map are the same list. */
  lemma {:induction false} SortedUnique(a: seq<Entry>, b: seq<Entry>)
    requires StrictlySorted(a) && StrictlySorted(b)
    requires ToMap(a) == ToMap(b)
    ensures a == b
  {
    if a != [] && b != [] {
      HeadIsLeast(a);
      HeadIsLeast(b);
      assert a[0].path in Keys(b) && b[0].path in Keys(a);
      PathLessAsymmetric(a[0].path, b[0].path);
      assert a[0].path == b[0].path;
      assert a[0].bytes == ToMap(a)[a[0].path] == ToMap(b)[b[0].path] == b[0].bytes;
      assert ToMap(a[1..]) == ToMap(a) - {a[0].path};
      assert ToMap(b[1..]) == ToMap(b) - {b[0].path};
      SortedUnique(a[1..], b[1..]);
      assert a == [a[0]] + a[1..] && b == [b[0]] + b[1..];
    }
  }

  /** Whether no later pair in `pairs` has the path of pair `i`. */
  predicate LastWithPath(pairs: seq<Entry>, i: int)
    requires 0 <= i < |pairs|
  {
    forall j :: i < j < |pairs| ==> pairs[j].path != pairs[i].path
  }

  /** `collect` into a `BTreeMap`: the pairs inserted one after the other. */
  function Collect(pairs: seq<Entry>): (r: seq<Entry>)
    ensures StrictlySorted(r)
    ensures Keys(r) == Keys(pairs)
  {
    if pairs == [] then []
    else
      var front := pairs[..|pairs| - 1];
      var last := pairs[|pairs| - 1];
      assert pairs == front + [last];
      KeysAppend(front, [last]);
      Insert(Collect(front), last.path, last.bytes)
  }

  /** One entry per distinct path, holding the bytes of the last pair with that path. */
  lemma {:induction false} CollectContents(pairs: seq<Entry>)
    ensures forall i :: 0 <= i < |pairs| && LastWithPath(pairs, i) ==>
              pairs[i].path in ToMap(Collect(pairs)) && ToMap(Collect(pairs))[pairs[i].path] == pairs[i].bytes
  {
    KeysHoldEveryPath(pairs);
    if pairs != [] {
      var front := pairs[..|pairs| - 1];
      var last := pairs[|pairs| - 1];
      CollectContents(front);
      InsertContents(Collect(front), last.path, last.bytes);
      forall i | 0 <= i < |pairs| - 1 && LastWithPath(pairs, i)
        ensures LastWithPath(front, i)
      {
      }
    }
  }

  // ----- Building the map of a package -----

  datatype ReadOutcome = Read(bytes: Bytes) | ReadFailed(message: string)

  datatype Listing = Listed(files: seq<Path>) | ListFailed(message: string)

  /**
    A workspace member as the path source sees it: its name, its
    manifest, whether updating the path source fails, and the files it lists.
   */
  datatype Member = Member(name: string, manifestPath: Path, updateFailure: Option<string>, listing: Listing)

  const ReadFailure := "failed to read file"
  const MissingPackage := "failed to find package"

  /** Read every file in order; the first failed read is the error (`collect::<Result<Vec<_>>>`). */
  function ReadAll(paths: seq<Path>, read: Path -> ReadOutcome): (r: Result<seq<Entry>>)
    ensures r.Ok? <==> forall i :: 0 <= i < |paths| ==> read(paths[i]).Read?
    ensures r.Ok? ==>
              (|r.value| == |paths| && forall i :: 0 <= i < |paths| ==> r.value[i] == Entry(paths[i], read(paths[i]).bytes))
    ensures r.Err? ==>
              (exists i :: 0 <= i < |paths| && read(paths[i]).ReadFailed? &&
                           (forall j :: 0 <= j < i ==> read(paths[j]).Read?) &&
                           r.error == Error(ReadFailure, None, Some(Foreign(read(paths[i]).message)), None))
  {
    if paths == [] then Ok([])
    else
      assert forall i :: 1 <= i < |paths| ==> paths[1..][i - 1] == paths[i];
      match read(paths[0])
      case ReadFailed(message) => Err(WithSource(New(ReadFailure), Foreign(message)))
      case Read(bytes) =>
        match ReadAll(paths[1..], read)
        case Err(e) =>
          var i :| 0 <= i < |paths[1..]| && read(paths[1..][i]).ReadFailed? &&
                   (forall j :: 0 <= j < i ==> read(paths[1..][j]).Read?) &&
                   e == Error(ReadFailure, None, Some(Foreign(read(paths[1..][i]).message)), None);
          assert forall j :: 0 <= j < i + 1 ==> read(paths[j]).Read? by {
            assert forall j :: 1 <= j < i + 1 ==> paths[j] == paths[1..][j - 1];
          }
          assert read(paths[i + 1]).ReadFailed?;
          Err(e)
        case Ok(rest) => Ok([Entry(paths[0], bytes)] + rest)
  }

  /** `Sources::new`: update the path source, list its files, add the manifest, read them all. */
  function MemberSources(m: Member, read: Path -> ReadOutcome): Result<seq<Entry>>
  {
    match m.updateFailure
    case Some(message) => Err(WithSource(New("failed to update path source"), Foreign(message)))
    case None =>
      match m.listing
      case ListFailed(message) => Err(WithSource(New("failed to list files"), Foreign(message)))
      case Listed(files) =>
        match ReadAll(files + [m.manifestPath], read)
        case Err(e) => Err(e)
        case Ok(pairs) => Ok(Collect(pairs))
  }

  /** The first member with the given name (`Iterator::find`). */
  function FindMember(members: seq<Member>, name: string): (r: Option<Member>)
    ensures r.None? <==> forall i :: 0 <= i < |members| ==> members[i].name != name
    ensures r.Some? ==>
              (exists i :: 0 <= i < |members| && r.value == members[i] && r.value.name == name &&
                           forall j :: 0 <= j < i ==> members[j].name != name)
  {
    if members == [] then None
    else if members[0].name == name then Some(members[0])
    else
      var r := FindMember(members[1..], name);
      assert forall i :: 1 <= i < |members| ==> members[1..][i - 1] == members[i];
      r
  }

  /** `Sources::from_package`. */
  function FromPackage(workspace: Result<seq<Member>>, name: string, read: Path -> ReadOutcome): Result<seq<Entry>>
  {
    match workspace
    case Err(e) => Err(e)
    case Ok(members) =>
      match FindMember(members, name)
      case None =>
        Err(WithExplanation(New(MissingPackage),
          "Could not find a package named `" + name + "` in the current workspace."))
      case Some(m) => MemberSources(m, read)
  }

  // ----- The map object -----

  /** An item fed to the digest: `HashItem::named` and `HashItem::List`. */
  datatype HashItem =
    | PathItem(path: Path)
    | BytesItem(bytes: Bytes)
    | NamedItem(name: string, item: HashItem)
    | List(items: seq<HashItem>)

  function EntryItem(e: Entry): HashItem
  {
    List([NamedItem("path", PathItem(e.path)), NamedItem("bytes", BytesItem(e.bytes))])
  }

  class Sources {
    var entries: seq<Entry>

    ghost predicate Valid()
      reads this
    {
      StrictlySorted(entries)
    }

    /** The files and their bytes. */
    function Contents(): map<Path, Bytes>
      reads this
    {
      ToMap(entries)
    }

    /** The map collected from the pairs in order. */
    constructor (pairs: seq<Entry>)
      ensures Valid()
      ensures entries == Collect(pairs)
    {
      entries := Collect(pairs);
    }

    /** `contains`: whether a file is in the map. */
    function Contains(path: Path): (r: bool)
      reads this
      ensures r <==> exists i :: 0 <= i < |entries| && entries[i].path == path
    {
      KeysMember(entries, path);
      path in ToMap(entries)
    }

    /** `remove`: `Some(())` exactly when the file was there; every other file stays. */
    method Remove(path: Path) returns (r: Option<()>)
      requires Valid()
      modifies this
      ensures Valid()
      ensures r.Some? <==> path in old(Contents())
      ensures Contents() == old(Contents()) - {path}
      ensures !Contains(path)
    {
      r := if path in ToMap(entries) then Some(()) else None;
      DeleteContents(entries, path);
      entries := Delete(entries, path);
    }

    /** `as_hash_item`: one `[path, bytes]` item per file, in the order of the map. */
    function HashItems(): (items: seq<HashItem>)
      reads this
      ensures |items| == |entries|
      ensures forall i :: 0 <= i < |items| ==> items[i] == EntryItem(entries[i])
    {
      seq(|entries|, i requires 0 <= i < |entries| reads this => EntryItem(entries[i]))
    }
  }

  // ----- Properties -----

  /**
    The hash items come in ascending path order and depend only on the
    contents, not on how the map was built.
   */
  lemma HashItemsDependOnContents(a: Sources, b: Sources)
    requires a.Valid() && b.Valid() && a.Contents() == b.Contents()
    ensures a.HashItems() == b.HashItems()
    ensures forall i, j :: 0 <= i < j < |a.entries| ==>
              a.HashItems()[i] == EntryItem(a.entries[i]) && PathLess(a.entries[i].path, a.entries[j].path)
  {
    SortedUnique(a.entries, b.entries);
  }

  /** The pairs that name exactly the given paths have exactly those keys. */
  lemma PairsNamePaths(paths: seq<Path>, pairs: seq<Entry>)
    requires |pairs| == |paths| && forall i :: 0 <= i < |paths| ==> pairs[i].path == paths[i]
    ensures forall p :: p in Keys(pairs) <==> p in paths
  {
    forall p
      ensures p in Keys(pairs) <==> p in paths
    {
      KeysMember(pairs, p);
      if p in paths {
        var i :| 0 <= i < |paths| && paths[i] == p;
        assert pairs[i].path == p;
      }
    }
  }

  /** When every pair holds the bytes `bytesOf` gives its path, so does the collected map. */
  lemma CollectHoldsBytes(pairs: seq<Entry>, bytesOf: Path -> Bytes)
    requires forall i :: 0 <= i < |pairs| ==> pairs[i].bytes == bytesOf(pairs[i].path)
    ensures var contents := ToMap(Collect(pairs));
      forall p :: p in contents ==> contents[p] == bytesOf(p)
  {
    var contents := ToMap(Collect(pairs));
    CollectContents(pairs);
    forall p | p in contents
      ensures contents[p] == bytesOf(p)
    {
      var i := LastIndex(pairs, p);
    }
  }

  /** Collecting what was read from some paths gives each of those paths, with its bytes. */
  lemma CollectReads(paths: seq<Path>, read: Path -> ReadOutcome)
    requires forall i :: 0 <= i < |paths| ==> read(paths[i]).Read?
    ensures var contents := ToMap(Collect(ReadAll(paths, read).value));
      && (forall p :: p in contents <==> p in paths)
      && (forall p :: p in contents ==> contents[p] == read(p).bytes)
  {
    var pairs := ReadAll(paths, read).value;
    PairsNamePaths(paths, pairs);
    var bytesOf := (p: Path) => if read(p).Read? then read(p).bytes else [];
    CollectHoldsBytes(pairs, bytesOf);
  }

  /**
    A package's map holds exactly its listed files and its manifest, each
    with the bytes read from it; a listed manifest appears once.
   */
  lemma MemberSourcesContents(m: Member, read: Path -> ReadOutcome)
    requires m.updateFailure.None? && m.listing.Listed?
    requires forall p :: p in m.listing.files || p == m.manifestPath ==> read(p).Read?
    ensures MemberSources(m, read).Ok?
    ensures var contents := ToMap(MemberSources(m, read).value);
      && (forall p :: p in contents <==> p in m.listing.files || p == m.manifestPath)
      && (forall p :: p in contents ==> contents[p] == read(p).bytes)
  {
    var paths := m.listing.files + [m.manifestPath];
    assert forall i :: 0 <= i < |paths| ==> paths[i] in m.listing.files || paths[i] == m.manifestPath;
    assert forall p :: p in paths <==> p in m.listing.files || p == m.manifestPath;
    CollectReads(paths, read);
  }

  /** The position of the last pair with a path that occurs. */
  function LastIndex(pairs: seq<Entry>, path: Path): (i: int)
    requires path in Keys(pairs)
    ensures 0 <= i < |pairs| && pairs[i].path == path && LastWithPath(pairs, i)
  {
    var front := pairs[..|pairs| - 1];
    assert pairs == front + [pairs[|pairs| - 1]];
    KeysAppend(front, [pairs[|pairs| - 1]]);
    if pairs[|pairs| - 1].path == path then |pairs| - 1
    else
      var i := LastIndex(front, path);
      assert pairs[i] == front[i];
      i
  }

  /** A missing package is reported as such, and only then. */
  lemma MissingPackageReported(members: seq<Member>, name: string, read: Path -> ReadOutcome)
    ensures var r := FromPackage(Ok(members), name, read);
      (r.Err? && r.error.description == MissingPackage) <==> forall i :: 0 <= i < |members| ==> members[i].name != name
    ensures (forall i :: 0 <= i < |members| ==> members[i].name != name) ==>
              FromPackage(Ok(members), name, read).error.explanation
                == Some("Could not find a package named `" + name + "` in the current workspace.")
  {
    var found := FindMember(members, name);
    if found.Some? {
      var m := found.value;
      if m.updateFailure.None? && m.listing.Listed? {
        var r := ReadAll(m.listing.files + [m.manifestPath], read);
        assert r.Err? ==> r.error.description == ReadFailure;
      }
    }
  }

  /** One unreadable file makes the whole construction fail with "failed to read file". */
  lemma UnreadableFileFails(m: Member, read: Path -> ReadOutcome, p: Path)
    requires m.updateFailure.None? && m.listing.Listed?
    requires (p in m.listing.files || p == m.manifestPath) && read(p).ReadFailed?
    ensures MemberSources(m, read).Err? && MemberSources(m, read).error.description == ReadFailure
  {
    var paths := m.listing.files + [m.manifestPath];
    assert p in paths;
  }
}
