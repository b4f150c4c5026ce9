/** Stat, Open and ReadDir of the merged blueprint tree agree. */
module BlueprintCoherence {
  import opened Wrappers
  import opened Strings
  import opened BlueprintTree

  /** One-element framework names that the fallback root does not have. */
  ghost predicate FrameworksAreNew(u: Union) {
    forall i :: 0 <= i < |u.mounts| && u.mounts[i].hasDir ==>
      ValidElement(u.mounts[i].framework) && u.mounts[i].framework !in u.fallback.kinds
  }

  ghost predicate FrameworksDiffer(mounts: seq<Mount>) {
    forall i, j :: 0 <= i < j < |mounts| && mounts[i].hasDir && mounts[j].hasDir ==>
      mounts[i].framework != mounts[j].framework
  }

  /** Each named template is a file in the root of its mount. */
  ghost predicate TemplatesExist(mounts: seq<Mount>) {
    forall i :: 0 <= i < |mounts| && mounts[i].nginxTemplate != "" ==>
      ValidElement(mounts[i].nginxTemplate)
      && StatIn(mounts[i].tree, mounts[i].nginxTemplate) == Success(File)
  }

  ghost predicate TemplatesDiffer(mounts: seq<Mount>) {
    forall i, j :: 0 <= i < j < |mounts| && mounts[i].nginxTemplate != "" ==>
      mounts[i].nginxTemplate != mounts[j].nginxTemplate
  }

  ghost predicate TemplatesAreNew(u: Union) {
    forall i :: 0 <= i < |u.mounts| && u.mounts[i].nginxTemplate != "" ==>
      Join(TEMPLATES, u.mounts[i].nginxTemplate) !in u.fallback.kinds
  }

  /** What the registered mounts have to satisfy for the merged tree to be coherent. */
  ghost predicate Coherent(u: Union) {
    && IsTree(u.fallback) && TEMPLATES in u.fallback.listing
    && (forall i :: 0 <= i < |u.mounts| ==> IsTree(u.mounts[i].tree))
    && FrameworksAreNew(u) && FrameworksDiffer(u.mounts)
    && TemplatesExist(u.mounts) && TemplatesDiffer(u.mounts) && TemplatesAreNew(u)
  }

  // ---- Paths ----

  lemma {:induction false} ElementLengthIs(name: string, n: nat)
    requires n <= |name| && '/' !in name[..n] && (n < |name| ==> name[n] == '/')
    ensures ElementLength(name) == n
  {
    if n > 0 {
      assert name[..n][0] == name[0];
      assert name[1..][..n - 1] == name[..n][1..];
      ElementLengthIs(name[1..], n - 1);
    }
  }

  lemma JoinIsValid(d: string, e: string)
    requires ValidPath(d) && ValidElement(e)
    ensures ValidPath(Join(d, e)) && Join(d, e) != "."
  {
    if d == "." {
      ElementLengthIs(e, |e|);
      assert e[..|e|] == e;
    } else {
      ElementsThenElement(d, e);
    }
  }

  lemma {:induction false} ElementsThenElement(d: string, e: string)
    requires ValidElements(d) && ValidElement(e)
    ensures ValidElements(d + "/" + e)
    decreases |d|
  {
    var name := d + "/" + e;
    var n := ElementLength(d);
    assert name[..n] == d[..n];
    ElementLengthIs(name, n);
    if n < |d| {
      assert name[n + 1..] == d[n + 1..] + "/" + e;
      ElementsThenElement(d[n + 1..], e);
    } else {
      assert name[n + 1..] == e;
      ElementLengthIs(e, |e|);
      assert e[..|e|] == e;
    }
  }

  /** A path starts with at most one element. */
  lemma OneFirstElement(a: string, b: string, name: string)
    requires '/' !in a && '/' !in b
    requires a + "/" <= name && b + "/" <= name
    ensures a == b
  {
    assert name[|a|] == '/' && name[|b|] == '/';
    forall k | 0 <= k < |a| ensures name[k] != '/' {
      assert name[k] == a[k] && a[k] in a;
    }
    forall k | 0 <= k < |b| ensures name[k] != '/' {
      assert name[k] == b[k] && b[k] in b;
    }
    assert |a| == |b|;
    assert a == name[..|a|] && b == name[..|b|];
  }

  /** A path has one last element. */
  lemma OneLastElement(d: string, e: string, p: string, b: string)
    requires '/' !in e && '/' !in b
    requires d + "/" + e == p + "/" + b
    ensures d == p && e == b
  {
    var name := d + "/" + e;
    assert name[|d|] == '/' && name[|p|] == '/';
    forall k | |d| < k < |name| ensures name[k] != '/' {
      assert name[k] == e[k - |d| - 1] && e[k - |d| - 1] in e;
    }
    forall k | |p| < k < |name| ensures name[k] != '/' {
      assert name[k] == b[k - |p| - 1] && b[k - |p| - 1] in b;
    }
    assert |d| == |p|;
    assert d == name[..|d|] && p == name[..|p|];
    assert e == name[|d| + 1..] && b == name[|p| + 1..];
  }

  lemma BaseOfElement(e: string)
    requires ValidElement(e)
    ensures BaseName(e) == e
  {
    ElementLengthIs(e, |e|);
  }

  lemma PrefixHasSlash(b: string, name: string)
    requires b + "/" <= name
    ensures '/' in name
  {
    assert name[|b|] == '/';
  }

  // ---- Mounts ----

  lemma ParentIsListed(t: Tree, d: string, e: string)
    requires IsTree(t) && ValidElement(e) && d + "/" + e in t.kinds && d != "."
    ensures d in t.kinds && d in t.listing
  {
    assert HasChild(t, d, e);
  }

  lemma GrandparentIsListed(t: Tree, a: string, b: string, c: string, path: string)
    requires IsTree(t) && ValidElement(b) && ValidElement(c) && a != "."
    requires path in t.kinds && path == a + "/" + b + "/" + c
    ensures a in t.kinds
  {
    assert (a + "/" + b)[|a|] == '/';
    ParentIsListed(t, a + "/" + b, c);
    ParentIsListed(t, a, b);
  }

  lemma TemplatesPath()
    ensures TEMPLATES == "support" + "/" + "nginx" + "/" + "templates"
    ensures ValidElement("nginx") && ValidElement("templates") && "support" != "."
  {
  }

  lemma SupportIsFallback(t: Tree)
    requires IsTree(t) && TEMPLATES in t.kinds
    ensures "support" in t.kinds
  {
    TemplatesPath();
    GrandparentIsListed(t, "support", "nginx", "templates", TEMPLATES);
  }

  lemma TemplatesElement(fw: string, name: string)
    requires '/' !in fw && fw != "support" && TEMPLATES <= name
    ensures name != fw && !(fw + "/" <= name)
  {
    assert TEMPLATES[..7] == "support" && TEMPLATES[7] == '/';
    assert name[7] == '/' && name[..7] == "support";
    assert "support" + "/" <= name;
    if fw + "/" <= name {
      OneFirstElement(fw, "support", name);
    }
    assert name != fw;
  }

  /** No mount owns anything at or below the templates directory, nor the directories above it. */
  lemma TemplatesAreNotMounted(u: Union, i: nat, name: string)
    requires IsTree(u.fallback) && TEMPLATES in u.fallback.kinds && FrameworksAreNew(u)
    requires i < |u.mounts| && u.mounts[i].hasDir
    requires TEMPLATES <= name
    ensures name != u.mounts[i].framework && !(u.mounts[i].framework + "/" <= name)
  {
    SupportIsFallback(u.fallback);
    TemplatesElement(u.mounts[i].framework, name);
  }

  lemma {:induction false} NoDirMount(mounts: seq<Mount>, name: string, i: nat)
    requires i <= |mounts|
    requires forall k :: i <= k < |mounts| && mounts[k].hasDir ==>
               name != mounts[k].framework
               && (mounts[k].framework + "/" <= name ==>
                     mounts[k].nginxTemplate != "" && name[|mounts[k].framework| + 1..] == mounts[k].nginxTemplate)
    ensures DirMountFrom(mounts, name, i) == None
    decreases |mounts| - i
  {
    if i < |mounts| {
      NoDirMount(mounts, name, i + 1);
    }
  }

  /** `name` is the mounted directory `fw` or the path `rel` below it. */
  predicate Below(fw: string, name: string, rel: string) {
    if name == fw then rel == "." else name == fw + "/" + rel
  }

  lemma OneFramework(a: string, b: string, name: string, rel: string)
    requires '/' !in a && '/' !in b && a != b
    requires Below(a, name, rel)
    ensures name != b && !(b + "/" <= name)
  {
    if name == a {
      if b + "/" <= name {
        PrefixHasSlash(b, name);
      }
    } else {
      assert a + "/" <= name && name[|a|] == '/';
      if b + "/" <= name {
        OneFirstElement(a, b, name);
      }
    }
  }

  /** With distinct framework names the first owner found is the only one. */
  lemma {:induction false} DirMountIs(u: Union, name: string, k: nat, rel: string, i: nat)
    requires FrameworksAreNew(u) && FrameworksDiffer(u.mounts)
    requires i <= k < |u.mounts| && u.mounts[k].hasDir
    requires Below(u.mounts[k].framework, name, rel)
    requires name == u.mounts[k].framework || u.mounts[k].nginxTemplate == "" || rel != u.mounts[k].nginxTemplate
    ensures DirMountFrom(u.mounts, name, i) == Some((k, rel))
    decreases k - i
  {
    var fw := u.mounts[k].framework;
    if i < k {
      if u.mounts[i].hasDir {
        OneFramework(fw, u.mounts[i].framework, name, rel);
      }
      DirMountIs(u, name, k, rel, i + 1);
    } else if name != fw {
      assert name[|fw| + 1..] == rel;
    }
  }

  lemma FileMountIs(mounts: seq<Mount>, k: nat)
    requires TemplatesDiffer(mounts) && k < |mounts| && mounts[k].nginxTemplate != ""
    ensures TemplateMountFrom(mounts, mounts[k].nginxTemplate, 0) == Some(k)
  {
  }

  /** Only children of the templates directory are file mounts. */
  lemma FileMountIsTemplate(u: Union, d: string, e: string)
    requires ValidElement(e)
    ensures FileMount(u, Join(d, e)).Some? ==>
              d == TEMPLATES && u.mounts[FileMount(u, Join(d, e)).value].nginxTemplate == e
  {
    var name := Join(d, e);
    if FileMount(u, name).Some? {
      var base := name[|TEMPLATES| + 1..];
      assert name == TEMPLATES + "/" + base;
      assert d != "." by {
        assert name[|TEMPLATES|] == '/';
      }
      OneLastElement(d, e, TEMPLATES, base);
    }
  }

  lemma {:induction false} TemplateEntriesAre(mounts: seq<Mount>)
    requires TemplatesExist(mounts)
    ensures TemplateEntries(mounts).Success?
    ensures forall x :: x in TemplateEntries(mounts).value <==>
              exists i :: 0 <= i < |mounts| && mounts[i].nginxTemplate != ""
                  && x == Entry(mounts[i].nginxTemplate, File)
  {
    if mounts != [] {
      var n := |mounts| - 1;
      TemplateEntriesAre(mounts[..n]);
      if mounts[n].nginxTemplate != "" {
        BaseOfElement(mounts[n].nginxTemplate);
      }
      forall x
        ensures x in TemplateEntries(mounts).value <==>
              exists i :: 0 <= i < |mounts| && mounts[i].nginxTemplate != ""
                  && x == Entry(mounts[i].nginxTemplate, File)
      {
        if i :| 0 <= i < |mounts| && mounts[i].nginxTemplate != "" && x == Entry(mounts[i].nginxTemplate, File) {
          if i < n {
            assert mounts[..n][i] == mounts[i];
          }
        }
        if x in TemplateEntries(mounts[..n]).value {
          var i :| 0 <= i < n && mounts[..n][i].nginxTemplate != "" && x == Entry(mounts[..n][i].nginxTemplate, File);
          assert mounts[i].nginxTemplate != "";
        }
      }
    }
  }

  lemma {:induction false} TemplateNamesAreDistinct(mounts: seq<Mount>)
    requires TemplatesExist(mounts)
    requires TemplatesDiffer(mounts)
    ensures TemplateEntries(mounts).Success? && Distinct(Names(TemplateEntries(mounts).value))
  {
    if mounts != [] {
      var n := |mounts| - 1;
      TemplateNamesAreDistinct(mounts[..n]);
      TemplateEntriesAre(mounts[..n]);
      if mounts[n].nginxTemplate != "" {
        BaseOfElement(mounts[n].nginxTemplate);
        var entries := TemplateEntries(mounts[..n]).value;
        forall k | 0 <= k < |entries|
          ensures entries[k].name != mounts[n].nginxTemplate
        {
          assert entries[k] in entries;
          var i :| 0 <= i < n && mounts[..n][i].nginxTemplate != ""
              && entries[k] == Entry(mounts[..n][i].nginxTemplate, File);
          assert mounts[i].nginxTemplate != mounts[n].nginxTemplate;
        }
      }
    }
  }

  lemma {:induction false} MountEntriesAre(mounts: seq<Mount>)
    ensures forall x :: x in MountEntries(mounts) <==>
              exists i :: 0 <= i < |mounts| && mounts[i].hasDir && x == Entry(mounts[i].framework, Dir)
  {
    if mounts != [] {
      var n := |mounts| - 1;
      MountEntriesAre(mounts[..n]);
      forall x
        ensures x in MountEntries(mounts) <==>
              exists i :: 0 <= i < |mounts| && mounts[i].hasDir && x == Entry(mounts[i].framework, Dir)
      {
        if i :| 0 <= i < |mounts| && mounts[i].hasDir && x == Entry(mounts[i].framework, Dir) {
          if i < n {
            assert mounts[..n][i] == mounts[i];
          }
        }
        if x in MountEntries(mounts[..n]) {
          var i :| 0 <= i < n && mounts[..n][i].hasDir && x == Entry(mounts[..n][i].framework, Dir);
          assert mounts[i].hasDir;
        }
      }
    }
  }

  lemma {:induction false} MountNamesAreDistinct(mounts: seq<Mount>)
    requires FrameworksDiffer(mounts)
    ensures Distinct(Names(MountEntries(mounts)))
  {
    if mounts != [] {
      var n := |mounts| - 1;
      MountNamesAreDistinct(mounts[..n]);
      MountEntriesAre(mounts[..n]);
      var entries := MountEntries(mounts[..n]);
      if mounts[n].hasDir {
        forall k | 0 <= k < |entries|
          ensures entries[k].name != mounts[n].framework
        {
          assert entries[k] in entries;
          var i :| 0 <= i < n && mounts[..n][i].hasDir && entries[k] == Entry(mounts[..n][i].framework, Dir);
          assert mounts[i].framework != mounts[n].framework;
        }
      }
    }
  }

  // ---- Listings of one tree ----

  /** A listing is sorted, free of duplicates, and shows exactly what Stat finds. */
  ghost predicate ListsChildren(entries: seq<Entry>, child: string -> Result<Kind, FsError>) {
    && StrictlySorted(Names(entries))
    && forall x: Entry :: x in entries <==> ValidElement(x.name) && child(x.name) == Success(x.kind)
  }

  lemma TreeListsChildren(t: Tree, d: string)
    requires IsTree(t) && d in t.listing
    ensures ListsChildren(EntriesOf(t, d, t.listing[d]), e => StatIn(t, Join(d, e)))
  {
    var names := t.listing[d];
    var entries := EntriesOf(t, d, names);
    assert Names(entries) == names;
    forall x: Entry | ValidElement(x.name) && StatIn(t, Join(d, x.name)) == Success(x.kind)
      ensures x in entries
    {
      assert HasChild(t, d, x.name);
      var i :| 0 <= i < |names| && names[i] == x.name;
      assert entries[i] == x;
    }
    forall x: Entry | x in entries
      ensures ValidElement(x.name) && StatIn(t, Join(d, x.name)) == Success(x.kind)
    {
      var i :| 0 <= i < |entries| && entries[i] == x;
      assert names[i] in names;
      assert HasChild(t, d, x.name);
    }
  }

  lemma {:induction false} WithoutNameIs(entries: seq<Entry>, name: string, x: Entry)
    ensures x in WithoutName(entries, name) <==> x in entries && x.name != name
  {
    if entries != [] {
      var n := |entries| - 1;
      WithoutNameIs(entries[..n], name, x);
      assert entries == entries[..n] + [entries[n]];
    }
  }

  lemma {:induction false} WithoutNameIsSorted(entries: seq<Entry>, name: string)
    requires StrictlySorted(Names(entries))
    ensures StrictlySorted(Names(WithoutName(entries, name)))
  {
    if entries != [] {
      var n := |entries| - 1;
      var front := WithoutName(entries[..n], name);
      assert Names(entries[..n]) == Names(entries)[..n];
      WithoutNameIsSorted(entries[..n], name);
      forall x | x in front ensures x in entries[..n] {
        WithoutNameIs(entries[..n], name, x);
      }
      LastIsGreatest(entries, front);
    }
  }

  lemma WithoutNameKeeps(entries: seq<Entry>, name: string)
    ensures forall x :: x in WithoutName(entries, name) <==> x in entries && x.name != name
    ensures StrictlySorted(Names(entries)) ==> StrictlySorted(Names(WithoutName(entries, name)))
  {
    forall x ensures x in WithoutName(entries, name) <==> x in entries && x.name != name {
      WithoutNameIs(entries, name, x);
    }
    if StrictlySorted(Names(entries)) {
      WithoutNameIsSorted(entries, name);
    }
  }

  lemma LastIsGreatest(entries: seq<Entry>, front: seq<Entry>)
    requires entries != [] && StrictlySorted(Names(entries))
    requires forall x :: x in front ==> x in entries[..|entries| - 1]
    ensures forall k :: 0 <= k < |front| ==> Less(front[k].name, entries[|entries| - 1].name)
  {
    var n := |entries| - 1;
    forall k | 0 <= k < |front|
      ensures Less(front[k].name, entries[n].name)
    {
      assert front[k] in front;
      var j :| 0 <= j < n && entries[..n][j] == front[k];
      assert Less(Names(entries)[j], Names(entries)[n]);
    }
  }

  lemma {:induction false} SplitLast(d: string) returns (p: string, e: string)
    requires ValidElements(d) && '/' in d
    ensures d == p + "/" + e && ValidElement(e)
    decreases |d|
  {
    var first, rest := SplitFirst(d);
    if '/' in rest {
      var q, last := SplitLast(rest);
      p, e := first + "/" + q, last;
      assert first + "/" + (q + "/" + last) == first + "/" + q + "/" + last;
    } else {
      LoneElement(rest);
      p, e := first, rest;
    }
  }

  lemma SplitFirst(d: string) returns (first: string, rest: string)
    requires ValidElements(d) && '/' in d
    ensures d == first + "/" + rest && ValidElements(rest) && |rest| < |d|
  {
    var n := ElementLength(d);
    assert d[..|d|] == d;
    first, rest := d[..n], d[n + 1..];
  }

  lemma LoneElement(e: string)
    requires ValidElements(e) && '/' !in e
    ensures ValidElement(e)
  {
    assert e[..|e|] == e;
    ElementLengthIs(e, |e|);
  }

  /** The first element of any path in a tree is in the tree. */
  lemma {:induction false} FirstElementIsThere(t: Tree, a: string, d: string)
    requires IsTree(t) && ValidElement(a) && d in t.kinds && a + "/" <= d
    ensures a in t.kinds
    decreases |d|
  {
    PrefixHasSlash(a, d);
    assert ValidPath(d);
    var p, e := SplitLast(d);
    assert p + "/" <= d;
    assert p != "." by {
      if p == "." {
        OneFirstElement(a, ".", d);
      }
    }
    ParentIsListed(t, p, e);
    assert d[|a|] == '/' && d[|p|] == '/';
    forall k | 0 <= k < |a| ensures d[k] != '/' {
      assert d[k] == a[k] && a[k] in a;
    }
    if |p| <= |a| {
      assert |p| == |a|;
      assert p == d[..|p|] && a == d[..|a|];
    } else {
      assert p == d[..|p|];
      assert a + "/" <= p;
      FirstElementIsThere(t, a, p);
    }
  }

  // ---- Children in the union ----

  lemma DirectoryBelowMount(u: Union, d: string, i: nat, rel: string)
    requires FrameworksAreNew(u) && i < |u.mounts| && u.mounts[i].hasDir
    requires ValidPath(d) && Below(u.mounts[i].framework, d, rel)
    ensures d != "."
    ensures d == u.mounts[i].framework || (rel != "." && ValidElements(rel))
    ensures ValidPath(rel)
  {
    var fw := u.mounts[i].framework;
    if d != fw {
      assert d[|fw|] == '/';
      assert d[..|fw|] == fw && d[|fw| + 1..] == rel;
      PrefixHasSlash(fw, d);
      ElementLengthIs(d, |fw|);
      assert ValidElements(rel);
      if rel == "." {
        ElementLengthIs(".", 1);
      }
    }
  }

  lemma JoinBelow(fw: string, d: string, rel: string, e: string)
    requires Below(fw, d, rel) && d != "." && (d == fw || rel != ".")
    ensures Join(d, e) == fw + "/" + Join(rel, e)
  {
  }

  lemma StatInMount(u: Union, name: string, i: nat, rel: string)
    requires ValidPath(name) && FileMount(u, name).None? && DirMountForPath(u, name) == Some((i, rel)) && rel != "."
    ensures Stat(u, name) == StatIn(u.mounts[i].tree, rel)
  {
  }

  lemma StatInFallback(u: Union, name: string)
    requires ValidPath(name) && FileMount(u, name).None? && DirMountForPath(u, name).None?
    requires name != "." && name != TEMPLATES
    ensures Stat(u, name) == StatIn(u.fallback, name)
  {
  }

  /** The fallback has the templates directory, and no mount can shadow it. */
  ghost predicate FallbackIsSound(u: Union) {
    IsTree(u.fallback) && TEMPLATES in u.fallback.kinds && u.fallback.kinds[TEMPLATES] == Dir && FrameworksAreNew(u)
  }

  lemma NotAFileMount(u: Union, d: string, i: nat, rel: string, e: string)
    requires FallbackIsSound(u) && ValidElement(e) && i < |u.mounts| && u.mounts[i].hasDir
    requires Below(u.mounts[i].framework, d, rel)
    ensures FileMount(u, Join(d, e)).None?
  {
    FileMountIsTemplate(u, d, e);
    if FileMount(u, Join(d, e)).Some? {
      TemplatesAreNotMounted(u, i, d);
    }
  }

  lemma PathBelowMount(u: Union, d: string, i: nat, rel: string, e: string)
    requires FallbackIsSound(u) && ValidPath(d) && ValidElement(e)
    requires i < |u.mounts| && u.mounts[i].hasDir && Below(u.mounts[i].framework, d, rel)
    ensures Join(d, e) == u.mounts[i].framework + "/" + Join(rel, e) && Join(d, e) != u.mounts[i].framework
    ensures ValidPath(Join(d, e)) && Join(rel, e) != "." && FileMount(u, Join(d, e)).None?
  {
    DirectoryBelowMount(u, d, i, rel);
    JoinBelow(u.mounts[i].framework, d, rel, e);
    JoinIsValid(d, e);
    JoinIsValid(rel, e);
    NotAFileMount(u, d, i, rel, e);
    PrefixHasSlash(u.mounts[i].framework, Join(d, e));
  }

  /** Below a mount Stat answers from the mount alone, except for its template. */
  lemma MountedChild(u: Union, d: string, i: nat, rel: string, e: string)
    requires FallbackIsSound(u) && FrameworksDiffer(u.mounts) && ValidPath(d) && ValidElement(e)
    requires DirMountForPath(u, d) == Some((i, rel))
    ensures Stat(u, Join(d, e)) ==
            if u.mounts[i].nginxTemplate != "" && Join(rel, e) == u.mounts[i].nginxTemplate then Failure(NotExist)
            else StatIn(u.mounts[i].tree, Join(rel, e))
  {
    var m := u.mounts[i];
    PathBelowMount(u, d, i, rel, e);
    if m.nginxTemplate != "" && Join(rel, e) == m.nginxTemplate {
      TemplateIsHidden(u, i);
    } else {
      DirMountIs(u, Join(d, e), i, Join(rel, e), 0);
      StatInMount(u, Join(d, e), i, Join(rel, e));
    }
  }

  /** `fw/template` is below no mount but its own, which leaves it out. */
  lemma TemplateHasNoDirMount(u: Union, i: nat)
    requires FrameworksAreNew(u) && FrameworksDiffer(u.mounts)
    requires i < |u.mounts| && u.mounts[i].hasDir && u.mounts[i].nginxTemplate != ""
    ensures DirMountForPath(u, u.mounts[i].framework + "/" + u.mounts[i].nginxTemplate) == None
  {
    var fw, template := u.mounts[i].framework, u.mounts[i].nginxTemplate;
    var name := fw + "/" + template;
    PrefixHasSlash(fw, name);
    assert name[|fw| + 1..] == template;
    forall k | 0 <= k < |u.mounts| && u.mounts[k].hasDir && k != i
      ensures name != u.mounts[k].framework && !(u.mounts[k].framework + "/" <= name)
    {
      OneFramework(fw, u.mounts[k].framework, name, template);
    }
    NoDirMount(u.mounts, name, 0);
  }

  lemma TemplateIsHidden(u: Union, i: nat)
    requires FallbackIsSound(u) && FrameworksDiffer(u.mounts)
    requires i < |u.mounts| && u.mounts[i].hasDir && u.mounts[i].nginxTemplate != ""
    requires var name := u.mounts[i].framework + "/" + u.mounts[i].nginxTemplate;
             ValidPath(name) && FileMount(u, name).None?
    ensures Stat(u, u.mounts[i].framework + "/" + u.mounts[i].nginxTemplate) == Failure(NotExist)
  {
    var fw := u.mounts[i].framework;
    var name := fw + "/" + u.mounts[i].nginxTemplate;
    assert fw + "/" <= name;
    PrefixHasSlash(fw, name);
    TemplateHasNoDirMount(u, i);
    assert name != TEMPLATES by {
      if name == TEMPLATES {
        TemplatesAreNotMounted(u, i, name);
      }
    }
    assert name !in u.fallback.kinds by {
      if name in u.fallback.kinds {
        FirstElementIsThere(u.fallback, fw, name);
      }
    }
    StatInFallback(u, name);
  }

  // ---- Outside the mounts ----

  ghost predicate IsFramework(mounts: seq<Mount>, e: string) {
    exists i :: 0 <= i < |mounts| && mounts[i].hasDir && mounts[i].framework == e
  }

  ghost predicate IsTemplate(mounts: seq<Mount>, e: string) {
    exists i :: 0 <= i < |mounts| && mounts[i].nginxTemplate != "" && mounts[i].nginxTemplate == e
  }

  /** Nothing in the fallback is at or below a mounted directory. */
  lemma FallbackIsNotMounted(u: Union, name: string)
    requires IsTree(u.fallback) && FrameworksAreNew(u) && name in u.fallback.kinds
    ensures DirMountForPath(u, name) == None
  {
    forall k | 0 <= k < |u.mounts| && u.mounts[k].hasDir
      ensures name != u.mounts[k].framework && !(u.mounts[k].framework + "/" <= name)
    {
      if u.mounts[k].framework + "/" <= name {
        FirstElementIsThere(u.fallback, u.mounts[k].framework, name);
      }
    }
    NoDirMount(u.mounts, name, 0);
  }

  /** A child of a fallback directory other than the root is below no mount. */
  lemma ChildIsNotMounted(u: Union, d: string, e: string)
    requires IsTree(u.fallback) && FrameworksAreNew(u) && d in u.fallback.kinds && d != "." && ValidElement(e)
    ensures DirMountForPath(u, Join(d, e)) == None
  {
    var name := Join(d, e);
    assert d + "/" <= name;
    PrefixHasSlash(d, name);
    forall k | 0 <= k < |u.mounts| && u.mounts[k].hasDir
      ensures name != u.mounts[k].framework && !(u.mounts[k].framework + "/" <= name)
    {
      var fw := u.mounts[k].framework;
      if fw + "/" <= name {
        FrameworkAboveChild(fw, d, e);
        if fw + "/" <= d {
          FirstElementIsThere(u.fallback, fw, d);
        }
      }
    }
    NoDirMount(u.mounts, name, 0);
  }

  lemma FrameworkAboveChild(fw: string, d: string, e: string)
    requires '/' !in e && fw + "/" <= d + "/" + e
    ensures d == fw || fw + "/" <= d
  {
    var name := d + "/" + e;
    assert name[|fw|] == '/';
    forall k | |d| < k < |name| ensures name[k] != '/' {
      assert name[k] == e[k - |d| - 1] && e[k - |d| - 1] in e;
    }
    assert fw == name[..|fw|] && d == name[..|d|];
    if |fw| < |d| {
      assert fw + "/" == name[..|fw| + 1];
    }
  }

  lemma RootChildIsNotMounted(u: Union, e: string)
    requires ValidElement(e) && !IsFramework(u.mounts, e)
    ensures DirMountForPath(u, e) == None
  {
    forall k | 0 <= k < |u.mounts| && u.mounts[k].hasDir
      ensures e != u.mounts[k].framework && !(u.mounts[k].framework + "/" <= e)
    {
      if u.mounts[k].framework + "/" <= e {
        PrefixHasSlash(u.mounts[k].framework, e);
      }
    }
    NoDirMount(u.mounts, e, 0);
  }

  lemma RootChild(u: Union, e: string)
    requires FrameworksAreNew(u) && FrameworksDiffer(u.mounts) && ValidElement(e)
    ensures Stat(u, e) == if IsFramework(u.mounts, e) then Success(Dir) else StatIn(u.fallback, e)
  {
    JoinIsValid(".", e);
    FileMountIsTemplate(u, ".", e);
    TemplatesPath();
    if IsFramework(u.mounts, e) {
      var k :| 0 <= k < |u.mounts| && u.mounts[k].hasDir && u.mounts[k].framework == e;
      DirMountIs(u, e, k, ".", 0);
    } else {
      RootChildIsNotMounted(u, e);
      assert TEMPLATES[7] == '/';
      StatInFallback(u, e);
    }
  }

  lemma TemplateIsMounted(u: Union, k: nat)
    requires FallbackIsSound(u) && TemplatesExist(u.mounts) && TemplatesDiffer(u.mounts)
    requires k < |u.mounts| && u.mounts[k].nginxTemplate != ""
    ensures FileMount(u, Join(TEMPLATES, u.mounts[k].nginxTemplate)) == Some(k)
    ensures Stat(u, Join(TEMPLATES, u.mounts[k].nginxTemplate)) == Success(File)
  {
    var e := u.mounts[k].nginxTemplate;
    assert ValidPath(TEMPLATES);
    JoinIsValid(TEMPLATES, e);
    assert Join(TEMPLATES, e)[|TEMPLATES| + 1..] == e;
    FileMountIs(u.mounts, k);
  }

  lemma TemplatesChild(u: Union, e: string)
    requires FallbackIsSound(u) && TemplatesExist(u.mounts) && TemplatesDiffer(u.mounts) && ValidElement(e)
    ensures Stat(u, Join(TEMPLATES, e)) == if IsTemplate(u.mounts, e) then Success(File)
        else StatIn(u.fallback, Join(TEMPLATES, e))
  {
    assert ValidPath(TEMPLATES);
    if IsTemplate(u.mounts, e) {
      var k :| 0 <= k < |u.mounts| && u.mounts[k].nginxTemplate != "" && u.mounts[k].nginxTemplate == e;
      TemplateIsMounted(u, k);
    } else {
      OtherTemplatesChild(u, e);
    }
  }

  lemma OtherTemplatesChild(u: Union, e: string)
    requires FallbackIsSound(u) && ValidElement(e) && !IsTemplate(u.mounts, e)
    ensures Stat(u, Join(TEMPLATES, e)) == StatIn(u.fallback, Join(TEMPLATES, e))
  {
    var name := Join(TEMPLATES, e);
    JoinIsValid(TEMPLATES, e);
    FileMountIsTemplate(u, TEMPLATES, e);
    ChildIsNotMounted(u, TEMPLATES, e);
    assert |name| > |TEMPLATES|;
    StatInFallback(u, name);
  }

  lemma OtherChild(u: Union, d: string, e: string)
    requires FallbackIsSound(u) && TemplatesExist(u.mounts) && ValidElement(e)
    requires d in u.fallback.kinds && d != "." && d != TEMPLATES
    ensures Stat(u, Join(d, e)) == StatIn(u.fallback, Join(d, e))
  {
    var name := Join(d, e);
    JoinIsValid(d, e);
    FileMountIsTemplate(u, d, e);
    ChildIsNotMounted(u, d, e);
    TemplateEntriesAre(u.mounts);
    if name != TEMPLATES {
      StatInFallback(u, name);
    }
  }
}
