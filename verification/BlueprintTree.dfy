/** Paths and read-only trees as io/fs has them, and unionFS of internal/blueprints/blueprints.go. */
module BlueprintTree {
  import opened Wrappers
  import opened Strings

  datatype Kind = File | Dir

  datatype FsError = NotExist | NotDirectory | InvalidPath

  datatype Entry = Entry(name: string, kind: Kind)

  // ---- Paths ----

  predicate ValidElement(e: string) {
    e != "" && '/' !in e && e != "." && e != ".."
  }

  /** Length of the first path element. */
  function ElementLength(name: string): (n: nat)
    ensures n <= |name| && '/' !in name[..n] && (n < |name| ==> name[n] == '/')
  {
    if name == "" || name[0] == '/' then 0 else
      assert name[..1 + ElementLength(name[1..])] == [name[0]] + name[1..][..ElementLength(name[1..])];
      1 + ElementLength(name[1..])
  }

  predicate ValidElements(name: string)
    decreases |name|
  {
    var n := ElementLength(name);
    && ValidElement(name[..n])
    && (n < |name| ==> ValidElements(name[n + 1..]))
  }

  /** fs.ValidPath. */
  predicate ValidPath(name: string) {
    name == "." || ValidElements(name)
  }

  function Join(d: string, e: string): string {
    if d == "." then e else d + "/" + e
  }

  // ---- One read-only tree ----

  /** What is at each path, and the sorted names in each directory. */
  datatype Tree = Tree(kinds: map<string, Kind>, listing: map<string, seq<string>>)

  predicate HasChild(t: Tree, d: string, e: string) {
    ValidElement(e) && Join(d, e) in t.kinds
  }

  /** The io/fs contract: listings are sorted and name exactly what is there; parents are directories. */
  ghost predicate IsTree(t: Tree) {
    && "." in t.kinds && t.kinds["."] == Dir
    && (forall name {:trigger ValidPath(name)} :: name in t.kinds ==> ValidPath(name))
    && (forall d :: d in t.listing <==> d in t.kinds && t.kinds[d] == Dir)
    && (forall d :: d in t.listing ==> StrictlySorted(t.listing[d]))
    && (forall d, e {:trigger HasChild(t, d, e)} :: d in t.listing ==> (e in t.listing[d] <==> HasChild(t, d, e)))
    && (forall d, e {:trigger HasChild(t, d, e)} :: HasChild(t, d, e) ==> d in t.listing)
  }

  function StatIn(t: Tree, name: string): Result<Kind, FsError> {
    if name in t.kinds then Success(t.kinds[name]) else Failure(NotExist)
  }

  function EntriesOf(t: Tree, d: string, names: seq<string>): seq<Entry> {
    seq(|names|, i requires 0 <= i < |names| =>
      Entry(names[i], if Join(d, names[i]) in t.kinds then t.kinds[Join(d, names[i])] else File))
  }

  function ReadDirIn(t: Tree, d: string): Result<seq<Entry>, FsError> {
    if d !in t.kinds then Failure(NotExist)
    else if d !in t.listing then Failure(NotDirectory)
    else Success(EntriesOf(t, d, t.listing[d]))
  }

  // ---- The union ----

  datatype Mount = Mount(framework: string, tree: Tree, hasDir: bool, nginxTemplate: string)

  datatype Union = Union(fallback: Tree, mounts: seq<Mount>)

  const TEMPLATES: string := "support/nginx/templates"

  /** dirMountForPath from mount i on: the owning mount and the path relative to it. */
  function DirMountFrom(mounts: seq<Mount>, name: string, i: nat): (r: Option<(nat, string)>)
    requires i <= |mounts|
    ensures r.Some? ==>
              && i <= r.value.0 < |mounts| && mounts[r.value.0].hasDir
              && (if name == mounts[r.value.0].framework then r.value.1 == "."
                  else name == mounts[r.value.0].framework + "/" + r.value.1
                       && (mounts[r.value.0].nginxTemplate == "" || r.value.1 != mounts[r.value.0].nginxTemplate))
    decreases |mounts| - i
  {
    if i == |mounts| then None
    else
      var m := mounts[i];
      if !m.hasDir then DirMountFrom(mounts, name, i + 1)
      else if name == m.framework then Some((i, "."))
      else if m.framework + "/" <= name then
        var rel := name[|m.framework| + 1..];
        if m.nginxTemplate != "" && rel == m.nginxTemplate then DirMountFrom(mounts, name, i + 1)
        else Some((i, rel))
      else DirMountFrom(mounts, name, i + 1)
  }

  function DirMountForPath(u: Union, name: string): Option<(nat, string)> {
    DirMountFrom(u.mounts, name, 0)
  }

  function TemplateMountFrom(mounts: seq<Mount>, base: string, i: nat): (r: Option<nat>)
    requires i <= |mounts|
    ensures r.Some? ==> i <= r.value < |mounts| && mounts[r.value].nginxTemplate == base != ""
    ensures r.None? ==> forall k :: i <= k < |mounts| ==>
        mounts[k].nginxTemplate == "" || mounts[k].nginxTemplate != base
    decreases |mounts| - i
  {
    if i == |mounts| then None
    else if mounts[i].nginxTemplate != "" && mounts[i].nginxTemplate == base then Some(i)
    else TemplateMountFrom(mounts, base, i + 1)
  }

  function FileMount(u: Union, name: string): Option<nat> {
    if !(TEMPLATES + "/" <= name) then None
    else
      var base := name[|TEMPLATES| + 1..];
      if '/' in base then None else TemplateMountFrom(u.mounts, base, 0)
  }

  /** path.Base of a template name. */
  function BaseName(name: string): string
    decreases |name|
  {
    var n := ElementLength(name);
    if n < |name| then BaseName(name[n + 1..]) else name
  }

  function TemplateEntries(mounts: seq<Mount>): Result<seq<Entry>, FsError> {
    if mounts == [] then Success([])
    else
      var last := mounts[|mounts| - 1];
      match TemplateEntries(mounts[..|mounts| - 1])
      case Failure(error) => Failure(error)
      case Success(entries) =>
        if last.nginxTemplate == "" then Success(entries)
        else
          match StatIn(last.tree, last.nginxTemplate)
          case Failure(error) => Failure(error)
          case Success(kind) => Success(entries + [Entry(BaseName(last.nginxTemplate), kind)])
  }

  function FileMountChildrenOf(u: Union, dir: string): Result<seq<Entry>, FsError> {
    if dir != TEMPLATES then Success([]) else TemplateEntries(u.mounts)
  }

  function MountEntries(mounts: seq<Mount>): seq<Entry> {
    if mounts == [] then []
    else
      var last := mounts[|mounts| - 1];
      MountEntries(mounts[..|mounts| - 1]) + (if last.hasDir then [Entry(last.framework, Dir)] else [])
  }

  function DirMountChildrenOf(u: Union, dir: string): seq<Entry> {
    if dir != "." then [] else MountEntries(u.mounts)
  }

  function Names(entries: seq<Entry>): (names: seq<string>)
    ensures |names| == |entries| && forall i :: 0 <= i < |names| ==> names[i] == entries[i].name
  {
    seq(|entries|, i requires 0 <= i < |entries| => entries[i].name)
  }

  function InsertEntry(entry: Entry, entries: seq<Entry>): seq<Entry> {
    if entries == [] then [entry]
    else if Less(entries[0].name, entry.name) then [entries[0]] + InsertEntry(entry, entries[1..])
    else [entry] + entries
  }

  /** `sort.Slice` by name; the order of equal names, which Go leaves open, does not arise below. */
  function SortEntries(entries: seq<Entry>): seq<Entry> {
    if entries == [] then [] else InsertEntry(entries[0], SortEntries(entries[1..]))
  }

  lemma NamesOfCons(x: Entry, rest: seq<Entry>)
    ensures Names([x] + rest) == [x.name] + Names(rest)
  {
  }

  lemma NamesOfRest(entries: seq<Entry>)
    requires entries != []
    ensures Names(entries)[0] == entries[0].name && Names(entries)[1..] == Names(entries[1..])
  {
  }

  lemma {:induction false} InsertEntryNames(entry: Entry, entries: seq<Entry>)
    ensures Names(InsertEntry(entry, entries)) == Insert(entry.name, Names(entries))
  {
    if entries != [] && Less(entries[0].name, entry.name) {
      InsertEntryNames(entry, entries[1..]);
      NamesOfCons(entries[0], InsertEntry(entry, entries[1..]));
      NamesOfRest(entries);
    } else {
      NamesOfCons(entry, entries);
    }
  }

  /** Sorting the entries sorts their names. */
  lemma {:induction false} SortEntriesNames(entries: seq<Entry>)
    ensures Names(SortEntries(entries)) == Sort(Names(entries))
  {
    if entries != [] {
      SortEntriesNames(entries[1..]);
      InsertEntryNames(entries[0], SortEntries(entries[1..]));
      NamesOfRest(entries);
    }
  }

  lemma {:induction false} InsertEntryMembers(entry: Entry, entries: seq<Entry>, x: Entry)
    ensures x in InsertEntry(entry, entries) <==> x == entry || x in entries
  {
    if entries != [] && Less(entries[0].name, entry.name) {
      InsertEntryMembers(entry, entries[1..], x);
    }
  }

  /** Sorting keeps the entries. */
  lemma {:induction false} SortEntriesMembers(entries: seq<Entry>, x: Entry)
    ensures x in SortEntries(entries) <==> x in entries
  {
    if entries != [] {
      SortEntriesMembers(entries[1..], x);
      InsertEntryMembers(entries[0], SortEntries(entries[1..]), x);
    }
  }

  function WithoutName(entries: seq<Entry>, name: string): seq<Entry> {
    if entries == [] then []
    else
      var last := entries[|entries| - 1];
      WithoutName(entries[..|entries| - 1], name) + (if last.name != name then [last] else [])
  }

  /** readDirMerged. */
  function ReadDirMerged(u: Union, name: string): Result<seq<Entry>, FsError> {
    match DirMountForPath(u, name)
    case Some((i, rel)) =>
      var m := u.mounts[i];
      (match ReadDirIn(m.tree, rel)
       case Failure(error) => Failure(error)
       case Success(entries) =>
         Success(if rel == "." && m.nginxTemplate != "" then WithoutName(entries, m.nginxTemplate) else entries))
    case None =>
      var listed := ReadDirIn(u.fallback, name);
      if listed.Failure? && listed.error != NotExist then Failure(listed.error)
      else
        var base := if listed.Success? then listed.value else [];
        match FileMountChildrenOf(u, name)
        case Failure(error) => Failure(error)
        case Success(fileEntries) =>
          var extra := DirMountChildrenOf(u, name) + fileEntries;
          if base == [] && extra == [] && listed.Failure? then Failure(listed.error)
          else Success(SortEntries(base + extra))
  }

  function ReadDir(u: Union, name: string): Result<seq<Entry>, FsError> {
    if !ValidPath(name) then Failure(InvalidPath) else ReadDirMerged(u, name)
  }

  function Stat(u: Union, name: string): Result<Kind, FsError> {
    if !ValidPath(name) then Failure(InvalidPath)
    else match FileMount(u, name)
      case Some(i) => StatIn(u.mounts[i].tree, u.mounts[i].nginxTemplate)
      case None =>
        match DirMountForPath(u, name)
        case Some((i, rel)) => if rel == "." then Success(Dir) else StatIn(u.mounts[i].tree, rel)
        case None =>
          if name == "." then Success(Dir)
          else
            match FileMountChildrenOf(u, name)
            case Failure(error) => Failure(error)
            case Success(fileEntries) =>
              if DirMountChildrenOf(u, name) + fileEntries != [] then Success(Dir) else StatIn(u.fallback, name)
  }

  /** Where an opened file comes from. */
  datatype Opened =
    | FromMount(mount: nat, path: string)
    | FromFallback(path: string)
    | MergedDirectory(entries: seq<Entry>)

  function OpenMergedDir(u: Union, name: string): Result<Opened, FsError> {
    match ReadDirMerged(u, name)
    case Failure(error) => Failure(error)
    case Success(entries) =>
      match Stat(u, name)
      case Failure(error) => Failure(error)
      case Success(_) => Success(MergedDirectory(entries))
  }

  function OpenIn(t: Tree, name: string, found: Opened): Result<Opened, FsError> {
    if name in t.kinds then Success(found) else Failure(NotExist)
  }

  function Open(u: Union, name: string): Result<Opened, FsError> {
    if !ValidPath(name) then Failure(InvalidPath)
    else match FileMount(u, name)
      case Some(i) => OpenIn(u.mounts[i].tree, u.mounts[i].nginxTemplate, FromMount(i, u.mounts[i].nginxTemplate))
      case None =>
        match DirMountForPath(u, name)
        case Some((i, rel)) =>
          if rel == "." then OpenMergedDir(u, name) else OpenIn(u.mounts[i].tree, rel, FromMount(i, rel))
        case None =>
          match FileMountChildrenOf(u, name)
          case Failure(error) => Failure(error)
          case Success(fileEntries) =>
            if DirMountChildrenOf(u, name) + fileEntries != [] then OpenMergedDir(u, name)
            else OpenIn(u.fallback, name, FromFallback(name))
  }

  /** The package-level list of mounts. */
  class Registry {
    const fallback: Tree
    var mounts: seq<Mount>

    constructor (fallback: Tree)
      ensures this.fallback == fallback && mounts == []
    {
      this.fallback := fallback;
      mounts := [];
    }

    /** RegisterFrameworkMount. */
    method Register(m: Mount)
      modifies this
      ensures Merged() == Union(fallback, old(mounts) + [m])
    {
      mounts := mounts + [m];
    }

    function Merged(): Union
      reads this
    {
      Union(fallback, mounts)
    }
  }
}
