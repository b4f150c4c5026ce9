/** mergedDirFile of internal/blueprints/blueprints.go: a directory handle read page by page. */
module DirectoryPages {
  import opened BlueprintTree

  const MAX_INT: int := 0x7FFF_FFFF_FFFF_FFFF

  /** Addition of Go's 64-bit int wraps around. */
  function WrappedSum(a: int, b: int): (s: int)
    ensures -MAX_INT - 1 <= a + b <= MAX_INT ==> s == a + b
  {
    (a + b + MAX_INT + 1) % (2 * (MAX_INT + 1)) - MAX_INT - 1
  }

  /** `SliceOutOfRange` is the panic of a slice expression whose end precedes its start. */
  datatype Page = Page(entries: seq<Entry>) | EndOfDirectory | SliceOutOfRange

  function ReadPage(entries: seq<Entry>, off: nat, n: int): (r: (Page, nat))
    requires off <= |entries|
    ensures r.1 <= |entries|
  {
    if n <= 0 then (Page(entries[off..]), |entries|)
    else if off >= |entries| then (EndOfDirectory, off)
    else
      var sum := WrappedSum(off, n);
      var end := if sum > |entries| then |entries| else sum;
      if end < off then (SliceOutOfRange, off) else (Page(entries[off..end]), end)
  }

  class MergedDirFile {
    const entries: seq<Entry>
    var off: nat

    constructor (entries: seq<Entry>)
      ensures this.entries == entries && off == 0
    {
      this.entries := entries;
      off := 0;
    }

    method ReadDir(n: int) returns (page: Page)
      requires off <= |entries|
      modifies this
      ensures off <= |entries| && (page, off) == ReadPage(entries, old(off), n)
    {
      if n <= 0 {
        page := Page(entries[off..]);
        off := |entries|;
        return;
      }
      if off >= |entries| {
        return EndOfDirectory;
      }
      var end := WrappedSum(off, n);
      if end > |entries| {
        end := |entries|;
      }
      if end < off {
        return SliceOutOfRange;
      }
      page := Page(entries[off..end]);
      off := end;
    }
  }

  /**
   * A page size the source accepts makes the slice expression panic exactly when adding it to the
   * offset passes the largest int.
   */
  lemma PageFailsIff(entries: seq<Entry>, off: nat, n: int)
    requires off <= |entries| <= MAX_INT && n <= MAX_INT
    ensures ReadPage(entries, off, n).0 == SliceOutOfRange <==> off < |entries| && off + n > MAX_INT
  {
    if off < |entries| && off + n > MAX_INT {
      assert off + n + MAX_INT + 1 - 2 * (MAX_INT + 1) == off + n - MAX_INT - 1;
      assert WrappedSum(off, n) == off + n - 2 * (MAX_INT + 1);
    }
  }

  function Contents(page: Page): seq<Entry> {
    if page.Page? then page.entries else []
  }

  /** What a sequence of reads returns, one after the other. */
  function ReadAll(entries: seq<Entry>, off: nat, sizes: seq<int>): (r: (seq<Entry>, nat))
    requires off <= |entries|
    ensures r.1 <= |entries|
    decreases |sizes|
  {
    if sizes == [] then ([], off)
    else
      var (page, next) := ReadPage(entries, off, sizes[0]);
      var (later, end) := ReadAll(entries, next, sizes[1..]);
      (Contents(page) + later, end)
  }

  /** One page takes the next entries, and leaves the rest. */
  lemma PageTakesNext(entries: seq<Entry>, off: nat, n: int)
    requires off <= |entries|
    ensures var (page, next) := ReadPage(entries, off, n);
            off <= next && Contents(page) + entries[next..] == entries[off..]
  {
    var (page, next) := ReadPage(entries, off, n);
    if page.Page? {
      assert page.entries == entries[off..next];
    }
  }

  lemma Regroup(a: seq<Entry>, b: seq<Entry>, c: seq<Entry>)
    ensures a + b + c == a + (b + c)
  {
  }

  /** No sequence of reads loses or repeats an entry: the pages are a prefix of what was left. */
  lemma {:induction false} PagesPartitionListing(entries: seq<Entry>, off: nat, sizes: seq<int>)
    requires off <= |entries|
    ensures ReadAll(entries, off, sizes).1 >= off
    ensures ReadAll(entries, off, sizes).0 + entries[ReadAll(entries, off, sizes).1..] == entries[off..]
    decreases |sizes|
  {
    if sizes != [] {
      var (page, next) := ReadPage(entries, off, sizes[0]);
      var (later, end) := ReadAll(entries, next, sizes[1..]);
      PagesPartitionListing(entries, next, sizes[1..]);
      PageTakesNext(entries, off, sizes[0]);
      Regroup(Contents(page), later, entries[end..]);
    }
  }

  /** A positive page size either makes progress by at most that much or reports the end, and only there. */
  lemma PagesMakeProgress(entries: seq<Entry>, off: nat, n: int)
    requires off <= |entries| <= MAX_INT && 0 < n && off + n <= MAX_INT
    ensures ReadPage(entries, off, n).0 == EndOfDirectory <==> off == |entries|
    ensures off < |entries| ==> ReadPage(entries, off, n).0.Page? && 0 < |ReadPage(entries, off, n).0.entries| <= n
  {
    assert WrappedSum(off, n) == off + n;
  }
}
