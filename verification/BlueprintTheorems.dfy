/** The merged tree reads as one directory tree, and a directory handle pages through it. */
module BlueprintTheorems {
  import opened Wrappers
  import opened Strings
  import opened BlueprintTree
  import opened BlueprintCoherence

  // ---- Merging two listings ----

  lemma MergedListing(base: seq<Entry>, extra: seq<Entry>)
    requires StrictlySorted(Names(base)) && Distinct(Names(extra))
    requires forall x, y :: x in base && y in extra ==> x.name != y.name
    ensures StrictlySorted(Names(SortEntries(base + extra)))
    ensures forall x :: x in SortEntries(base + extra) <==> x in base || x in extra
  {
    var merged := base + extra;
    SortEntriesNames(merged);
    SortSorts(Names(merged));
    StrictIsDistinct(Names(base));
    forall i, j | 0 <= i < j < |merged|
      ensures Names(merged)[i] != Names(merged)[j]
    {
      if j < |base| {
        assert Names(base)[i] != Names(base)[j];
      } else if i >= |base| {
        assert Names(extra)[i - |base|] != Names(extra)[j - |base|];
      } else {
        assert merged[i] in base && merged[j] in extra;
      }
    }
    SameElements(Sort(Names(merged)), Names(merged));
    SortedDistinctIsStrict(Sort(Names(merged)));
    forall x {
      SortEntriesMembers(merged, x);
    }
  }

  lemma StrictIsDistinct(names: seq<string>)
    requires StrictlySorted(names)
    ensures Distinct(names)
  {
    forall i, j | 0 <= i < j < |names|
      ensures names[i] != names[j]
    {
      LessIsStrict(names[i]);
    }
  }

  // ---- ReadDir against Stat, place by place ----

  /** What Stat says of a child below a mount: the template is left out, and only at the mount's root. */
  lemma MountedChildStat(u: Union, d: string, i: nat, rel: string, e: string)
    requires FallbackIsSound(u) && FrameworksDiffer(u.mounts) && TemplatesExist(u.mounts)
    requires ValidPath(d) && ValidElement(e)
    requires DirMountForPath(u, d) == Some((i, rel))
    ensures Stat(u, Join(d, e)) ==
            if rel == "." && u.mounts[i].nginxTemplate != "" && e == u.mounts[i].nginxTemplate then Failure(NotExist)
            else StatIn(u.mounts[i].tree, Join(rel, e))
  {
    MountedChild(u, d, i, rel, e);
    if rel != "." {
      assert Join(rel, e)[|rel|] == '/';
    }
  }

  /** The listing of a directory of a mount without the template. */
  function Shown(m: Mount, rel: string): seq<Entry>
    requires rel in m.tree.listing
  {
    var all := EntriesOf(m.tree, rel, m.tree.listing[rel]);
    if rel == "." && m.nginxTemplate != "" then WithoutName(all, m.nginxTemplate) else all
  }

  lemma ShownIs(m: Mount, rel: string)
    requires IsTree(m.tree) && rel in m.tree.listing
    ensures StrictlySorted(Names(Shown(m, rel)))
    ensures forall x: Entry :: x in Shown(m, rel) <==>
              && ValidElement(x.name) && StatIn(m.tree, Join(rel, x.name)) == Success(x.kind)
              && !(rel == "." && m.nginxTemplate != "" && x.name == m.nginxTemplate)
  {
    TreeListsChildren(m.tree, rel);
    WithoutNameKeeps(EntriesOf(m.tree, rel, m.tree.listing[rel]), m.nginxTemplate);
  }

  lemma MountedReadDir(u: Union, d: string, i: nat, rel: string)
    requires DirMountForPath(u, d) == Some((i, rel)) && IsTree(u.mounts[i].tree)
    ensures if rel in u.mounts[i].tree.listing then ReadDirMerged(u, d) == Success(Shown(u.mounts[i], rel))
            else ReadDirMerged(u, d).Failure?
  {
  }

  lemma MountedListing(u: Union, d: string, i: nat, rel: string)
    requires FallbackIsSound(u) && FrameworksDiffer(u.mounts) && TemplatesExist(u.mounts)
    requires ValidPath(d) && DirMountForPath(u, d) == Some((i, rel))
    requires IsTree(u.mounts[i].tree)
    ensures ReadDirMerged(u, d).Success? <==> rel in u.mounts[i].tree.listing
    ensures ReadDirMerged(u, d).Success? ==> ListsChildren(ReadDirMerged(u, d).value, e => Stat(u, Join(d, e)))
  {
    MountedReadDir(u, d, i, rel);
    if rel in u.mounts[i].tree.listing {
      ShownIs(u.mounts[i], rel);
      forall x: Entry
        ensures x in Shown(u.mounts[i], rel) <==> ValidElement(x.name) && Stat(u, Join(d, x.name)) == Success(x.kind)
      {
        if ValidElement(x.name) {
          MountedChildStat(u, d, i, rel, x.name);
        }
      }
    }
  }

  lemma FallbackListing(u: Union, d: string, extra: seq<Entry>)
    requires IsTree(u.fallback) && d in u.fallback.listing && DirMountForPath(u, d).None?
    requires FileMountChildrenOf(u, d).Success? && DirMountChildrenOf(u, d) + FileMountChildrenOf(u, d).value == extra
    ensures ReadDirMerged(u, d) == Success(SortEntries(EntriesOf(u.fallback, d, u.fallback.listing[d]) + extra))
  {
  }

  lemma RootListing(u: Union)
    requires Coherent(u)
    ensures ReadDirMerged(u, ".").Success?
    ensures ListsChildren(ReadDirMerged(u, ".").value, e => Stat(u, Join(".", e)))
  {
    var base := EntriesOf(u.fallback, ".", u.fallback.listing["."]);
    var extra := MountEntries(u.mounts);
    FallbackIsNotMounted(u, ".");
    TreeListsChildren(u.fallback, ".");
    MountEntriesAre(u.mounts);
    MountNamesAreDistinct(u.mounts);
    assert extra + [] == extra;
    FallbackListing(u, ".", extra);
    MergedListing(base, extra);
    forall x: Entry
      ensures x in base || x in extra <==> ValidElement(x.name) && Stat(u, Join(".", x.name)) == Success(x.kind)
    {
      if ValidElement(x.name) {
        RootChild(u, x.name);
      }
    }
  }

  lemma TemplatesMerge(u: Union, x: Entry)
    requires Coherent(u)
    ensures TemplateEntries(u.mounts).Success?
    ensures x in EntriesOf(u.fallback, TEMPLATES, u.fallback.listing[TEMPLATES]) || x in TemplateEntries(u.mounts).value
            <==> ValidElement(x.name) && Stat(u, Join(TEMPLATES, x.name)) == Success(x.kind)
  {
    TreeListsChildren(u.fallback, TEMPLATES);
    TemplateEntriesAre(u.mounts);
    if ValidElement(x.name) {
      TemplatesChild(u, x.name);
    }
  }

  lemma TemplatesDisjoint(u: Union, x: Entry, y: Entry)
    requires IsTree(u.fallback) && TEMPLATES in u.fallback.listing && TemplatesExist(u.mounts) && TemplatesAreNew(u)
    requires x in EntriesOf(u.fallback, TEMPLATES, u.fallback.listing[TEMPLATES])
    requires TemplateEntries(u.mounts).Success? && y in TemplateEntries(u.mounts).value
    ensures x.name != y.name
  {
    TreeListsChildren(u.fallback, TEMPLATES);
    TemplateEntriesAre(u.mounts);
  }

  lemma TemplatesListing(u: Union)
    requires Coherent(u)
    ensures ReadDirMerged(u, TEMPLATES).Success?
    ensures ListsChildren(ReadDirMerged(u, TEMPLATES).value, e => Stat(u, Join(TEMPLATES, e)))
  {
    var base := EntriesOf(u.fallback, TEMPLATES, u.fallback.listing[TEMPLATES]);
    FallbackIsNotMounted(u, TEMPLATES);
    TreeListsChildren(u.fallback, TEMPLATES);
    TemplateNamesAreDistinct(u.mounts);
    var extra := TemplateEntries(u.mounts).value;
    assert [] + extra == extra;
    FallbackListing(u, TEMPLATES, extra);
    forall x, y | x in base && y in extra ensures x.name != y.name {
      TemplatesDisjoint(u, x, y);
    }
    MergedListing(base, extra);
    forall x: Entry {
      TemplatesMerge(u, x);
    }
  }

  lemma OtherListing(u: Union, d: string)
    requires Coherent(u) && DirMountForPath(u, d).None? && d != "." && d != TEMPLATES
    ensures ReadDirMerged(u, d).Success? <==> d in u.fallback.listing
    ensures ReadDirMerged(u, d).Success? ==> ListsChildren(ReadDirMerged(u, d).value, e => Stat(u, Join(d, e)))
  {
    if d in u.fallback.listing {
      var base := EntriesOf(u.fallback, d, u.fallback.listing[d]);
      TreeListsChildren(u.fallback, d);
      var none: seq<Entry> := [];
      assert none + none == none;
      FallbackListing(u, d, none);
      MergedListing(base, none);
      forall x: Entry | ValidElement(x.name)
        ensures Stat(u, Join(d, x.name)) == StatIn(u.fallback, Join(d, x.name))
      {
        OtherChild(u, d, x.name);
      }
    }
  }

  /**
   * Coherence of ReadDir: it succeeds on exactly the directories, and its listing is sorted, free of
   * duplicates, and has exactly the e for which Stat(d/e) succeeds, with the kind Stat reports.
   */
  lemma ReadDirAgreesWithStat(u: Union, d: string)
    requires Coherent(u)
    ensures ReadDir(u, d).Success? <==> Stat(u, d) == Success(Dir)
    ensures ReadDir(u, d).Success? ==> ListsChildren(ReadDir(u, d).value, e => Stat(u, Join(d, e)))
  {
    if ValidPath(d) {
      match DirMountForPath(u, d)
      case Some((i, rel)) =>
        MountedListing(u, d, i, rel);
        MountedStat(u, d, i, rel);
      case None =>
        if d == "." {
          RootListing(u);
          RootIsDirectory(u);
        } else if d == TEMPLATES {
          TemplatesListing(u);
          TemplatesIsDirectory(u);
        } else {
          OtherListing(u, d);
          OtherStat(u, d);
        }
    }
  }

  lemma MountedStat(u: Union, d: string, i: nat, rel: string)
    requires Coherent(u) && ValidPath(d) && DirMountForPath(u, d) == Some((i, rel))
    ensures FileMount(u, d).None?
    ensures Stat(u, d) == if rel == "." then Success(Dir) else StatIn(u.mounts[i].tree, rel)
    ensures rel in u.mounts[i].tree.listing <==> Stat(u, d) == Success(Dir)
  {
    if FileMount(u, d).Some? {
      TemplatesAreNotMounted(u, i, d);
    }
  }

  lemma RootIsDirectory(u: Union)
    requires Coherent(u)
    ensures Stat(u, ".") == Success(Dir)
  {
    FallbackIsNotMounted(u, ".");
  }

  lemma TemplatesIsDirectory(u: Union)
    requires Coherent(u)
    ensures FileMount(u, TEMPLATES).None? && Stat(u, TEMPLATES) == Success(Dir)
  {
    FallbackIsNotMounted(u, TEMPLATES);
    TemplateEntriesAre(u.mounts);
  }

  lemma OtherStat(u: Union, d: string)
    requires Coherent(u) && ValidPath(d) && DirMountForPath(u, d).None? && d != "." && d != TEMPLATES
    ensures FileMount(u, d).Some? ==> Stat(u, d) == Success(File) && d !in u.fallback.listing
    ensures FileMount(u, d).None? ==> Stat(u, d) == StatIn(u.fallback, d)
  {
    if FileMount(u, d).Some? {
      var i := FileMount(u, d).value;
      assert d == Join(TEMPLATES, u.mounts[i].nginxTemplate);
    } else {
      StatInFallback(u, d);
    }
  }

  lemma MountedOpen(u: Union, name: string, i: nat, rel: string)
    requires ValidPath(name) && FileMount(u, name).None? && DirMountForPath(u, name) == Some((i, rel))
    requires rel == "." ==> ReadDirMerged(u, name).Success?
    ensures Open(u, name).Success? <==> Stat(u, name).Success?
  {
  }

  lemma UnmountedOpen(u: Union, name: string)
    requires ValidPath(name) && DirMountForPath(u, name).None?
    requires name == "." ==> "." in u.fallback.kinds
    requires name == "." || name == TEMPLATES ==>
               ReadDirMerged(u, name).Success? && Stat(u, name).Success? && FileMountChildrenOf(u, name).Success?
    requires name == TEMPLATES ==> FileMount(u, name).None? && name in u.fallback.kinds
    ensures Open(u, name).Success? <==> Stat(u, name).Success?
  {
  }

  /** Open succeeds exactly where Stat does. */
  lemma OpenAgreesWithStat(u: Union, name: string)
    requires Coherent(u)
    ensures Open(u, name).Success? <==> Stat(u, name).Success?
  {
    if ValidPath(name) {
      match DirMountForPath(u, name)
      case Some((i, rel)) =>
        MountedStat(u, name, i, rel);
        MountedListing(u, name, i, rel);
        MountedOpen(u, name, i, rel);
      case None =>
        if name == "." {
          RootListing(u);
          RootIsDirectory(u);
        } else if name == TEMPLATES {
          TemplatesListing(u);
          TemplatesIsDirectory(u);
          TemplateEntriesAre(u.mounts);
        }
        UnmountedOpen(u, name);
    }
  }

  /** A file of a mount is visible at no more than one path: for all mounts, coherent or not. */
  lemma VisibleOnce(u: Union, a: string, b: string, i: nat, path: string)
    requires Open(u, a) == Success(FromMount(i, path)) && Open(u, b) == Success(FromMount(i, path))
    ensures a == b
  {
    PathOfMounted(u, a, i, path);
    PathOfMounted(u, b, i, path);
  }

  /** The path is decided by the mount and the file: its template goes to the templates directory. */
  lemma PathOfMounted(u: Union, name: string, i: nat, path: string)
    requires Open(u, name) == Success(FromMount(i, path))
    ensures i < |u.mounts|
    ensures name == if path == u.mounts[i].nginxTemplate != "" then TEMPLATES + "/" + path
                    else u.mounts[i].framework + "/" + path
  {
    match FileMount(u, name)
    case Some(k) =>
      assert name == TEMPLATES + "/" + name[|TEMPLATES| + 1..];
    case None =>
  }

  /** And every mounted file other than the template is visible under its framework. */
  lemma MountedFileIsVisible(u: Union, i: nat, path: string)
    requires Coherent(u) && i < |u.mounts| && u.mounts[i].hasDir
    requires path in u.mounts[i].tree.kinds && path != "."
    requires path != u.mounts[i].nginxTemplate
    ensures Open(u, u.mounts[i].framework + "/" + path) == Success(FromMount(i, path))
  {
    var fw := u.mounts[i].framework;
    var name := fw + "/" + path;
    assert ValidPath(path);
    ElementThenPath(fw, path);
    PrefixHasSlash(fw, name);
    assert name[|fw| + 1..] == path;
    DirMountIs(u, name, i, path, 0);
    MountedStat(u, name, i, path);
  }

  lemma ElementThenPath(e: string, path: string)
    requires ValidElement(e) && ValidPath(path) && path != "."
    ensures ValidPath(e + "/" + path)
  {
    var name := e + "/" + path;
    assert name[..|e|] == e && name[|e| + 1..] == path;
    ElementLengthIs(name, |e|);
  }

  lemma TemplateIsVisible(u: Union, i: nat)
    requires Coherent(u) && i < |u.mounts| && u.mounts[i].nginxTemplate != ""
    ensures Open(u, TEMPLATES + "/" + u.mounts[i].nginxTemplate) == Success(FromMount(i, u.mounts[i].nginxTemplate))
  {
    TemplateIsMounted(u, i);
    JoinIsValid(TEMPLATES, u.mounts[i].nginxTemplate);
  }
}
