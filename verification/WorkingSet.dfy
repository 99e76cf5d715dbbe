/** Compaction of recorded pages into the working-set file, and its bulk installation. */
module WorkingSet {
  import opened Options
  import opened Sorting
  import opened Regions

  type Byte = b: int | 0 <= b < 256
  type Page = seq<Byte>

  /** The page of a memory image at an offset; empty when the image ends before it does. */
  function PageAt(mem: seq<Byte>, offset: nat, p: nat := 4096): Page {
    if offset + p <= |mem| then mem[offset..offset + p] else []
  }

  ghost predicate Inside(mem: seq<Byte>, offs: seq<nat>) {
    forall i :: 0 <= i < |offs| ==> offs[i] + PAGE <= |mem|
  }

  /** The pages at `offs`, one after the other. */
  function Pages(mem: seq<Byte>, offs: seq<nat>): seq<Byte> {
    if offs == [] then []
    else Pages(mem, offs[..|offs| - 1]) + PageAt(mem, offs[|offs| - 1])
  }

  lemma SliceJoin<T>(s: seq<T>, a: nat, b: nat, c: nat)
    requires a <= b <= c <= |s|
    ensures s[a..b] + s[b..c] == s[a..c]
  {
  }

  lemma SliceSlice<T>(s: seq<T>, a: nat, b: nat, c: nat, d: nat)
    requires a <= b <= |s| && c <= d && a + d <= b
    ensures s[a..b][c..d] == s[a + c..a + d]
  {
    var t := s[a..b];
    forall i | 0 <= i < d - c ensures t[c..d][i] == s[a + c..a + d][i] {
      assert t[c..d][i] == t[c + i] == s[a + c + i];
    }
  }

  lemma SliceLength<T>(s: seq<T>, a: nat, n: nat)
    requires a + n <= |s|
    ensures |s[a..a + n]| == n
  {
  }

  lemma PagesSnoc(mem: seq<Byte>, a: seq<nat>, o: nat)
    ensures Pages(mem, a + [o]) == Pages(mem, a) + PageAt(mem, o)
  {
    assert (a + [o])[..|a|] == a;
  }

  lemma NilPages(mem: seq<Byte>)
    ensures Pages(mem, []) == []
  {
  }

  lemma {:induction false} PagesAppend(mem: seq<Byte>, a: seq<nat>, b: seq<nat>)
    ensures Pages(mem, a + b) == Pages(mem, a) + Pages(mem, b)
    decreases |b|
  {
    hide *;
    if b == [] {
      NilPages(mem);
      assert a + b == a;
    } else {
      var b', o := b[..|b| - 1], b[|b| - 1];
      assert b == b' + [o] && a + b == a + b' + [o];
      PagesAppend(mem, a, b');
      PagesSnoc(mem, a + b', o);
      PagesSnoc(mem, b', o);
    }
  }

  lemma {:induction false} PagesLength(mem: seq<Byte>, offs: seq<nat>)
    requires Inside(mem, offs)
    ensures |Pages(mem, offs)| == Bytes(|offs|)
  {
    if offs != [] { PagesLength(mem, offs[..|offs| - 1]); }
  }

  lemma RunSnoc(k: nat, n: nat)
    requires n > 0
    ensures Run(k, n) == Run(k, n - 1) + [k + Bytes(n - 1)]
    ensures Bytes(n) == Bytes(n - 1) + PAGE
  {
  }

  lemma RunNil(k: nat)
    ensures Run(k, 0) == [] && Bytes(0) == 0
  {
  }

  lemma PageIs(mem: seq<Byte>, o: nat)
    requires o + PAGE <= |mem|
    ensures PageAt(mem, o) == mem[o..o + PAGE]
  {
  }

  lemma {:induction false} PagesRun(mem: seq<Byte>, k: nat, n: nat)
    requires k + Bytes(n) <= |mem|
    ensures Pages(mem, Run(k, n)) == mem[k..k + Bytes(n)]
  {
    hide *;
    if n == 0 {
      RunNil(k);
      NilPages(mem);
    } else {
      RunSnoc(k, n);
      var m := k + Bytes(n - 1);
      PagesRun(mem, k, n - 1);
      PagesSnoc(mem, Run(k, n - 1), m);
      PageIs(mem, m);
      SliceJoin(mem, k, m, m + PAGE);
    }
  }

  lemma InsideSnoc(mem: seq<Byte>, offs: seq<nat>, o: nat)
    requires Inside(mem, offs + [o])
    ensures Inside(mem, offs) && o + PAGE <= |mem|
  {
    var s := offs + [o];
    assert s[|offs|] == o && forall i :: 0 <= i < |offs| ==> s[i] == offs[i];
  }

  lemma PrefixSlice<T>(a: seq<T>, b: seq<T>, i: nat, j: nat)
    requires i <= j <= |a|
    ensures (a + b)[i..j] == a[i..j]
  {
  }

  lemma SuffixSlice<T>(a: seq<T>, b: seq<T>)
    ensures (a + b)[|a|..|a| + |b|] == b
  {
  }

  lemma PageLength(mem: seq<Byte>, o: nat)
    requires o + PAGE <= |mem|
    ensures |PageAt(mem, o)| == PAGE
  {
  }

  lemma BytesBelow(i: nat, n: nat)
    requires i < n
    ensures Bytes(i) + PAGE <= Bytes(n)
  {
  }

  /** The i-th page of the file is the page recorded i-th. */
  lemma {:induction false} PagesIndex(mem: seq<Byte>, offs: seq<nat>, i: nat)
    requires Inside(mem, offs) && i < |offs|
    ensures |Pages(mem, offs)| == Bytes(|offs|) && Bytes(i) + PAGE <= Bytes(|offs|)
    ensures Pages(mem, offs)[Bytes(i)..Bytes(i) + PAGE] == PageAt(mem, offs[i])
  {
    hide *;
    var n := |offs| - 1;
    var offs', o := offs[..n], offs[n];
    assert offs == offs' + [o];
    InsideSnoc(mem, offs', o);
    PagesLength(mem, offs);
    PagesLength(mem, offs');
    PageLength(mem, o);
    BytesBelow(i, |offs|);
    PagesSnoc(mem, offs', o);
    if i < n {
      PagesIndex(mem, offs', i);
      PrefixSlice(Pages(mem, offs'), PageAt(mem, o), Bytes(i), Bytes(i) + PAGE);
    } else {
      SuffixSlice(Pages(mem, offs'), PageAt(mem, o));
    }
  }

  /** The compaction loop: None stands for the fatal error of a short read. */
  function Compact(mem: seq<Byte>, keys: seq<nat>, regions: RegionMap, p: nat := 4096): Option<seq<Byte>> {
    if keys == [] then Some([])
    else
      var k := keys[|keys| - 1];
      var n := Count(regions, k);
      match Compact(mem, keys[..|keys| - 1], regions, p)
      case None => None
      case Some(file) => if k + Bytes(n, p) <= |mem| then Some(file + mem[k..k + Bytes(n, p)]) else None
  }

  lemma LastRunInside(mem: seq<Byte>, a: seq<nat>, k: nat, n: nat)
    requires n >= 1 && Inside(mem, a + Run(k, n))
    ensures Inside(mem, a) && k + Bytes(n) <= |mem|
  {
    var s := a + Run(k, n);
    forall i | 0 <= i < |a| ensures a[i] + PAGE <= |mem| { assert s[i] == a[i]; }
    assert s[|a| + n - 1] == Run(k, n)[n - 1] == k + Bytes(n - 1);
  }

  ghost predicate Positive(keys: seq<nat>, regions: RegionMap) {
    forall i :: 0 <= i < |keys| ==> Count(regions, keys[i]) >= 1
  }

  lemma PositiveSnoc(keys: seq<nat>, k: nat, regions: RegionMap)
    requires Positive(keys + [k], regions)
    ensures Positive(keys, regions) && Count(regions, k) >= 1
  {
    var s := keys + [k];
    assert s[|keys|] == k && forall i :: 0 <= i < |keys| ==> s[i] == keys[i];
  }

  lemma CompactSnoc(mem: seq<Byte>, keys: seq<nat>, k: nat, regions: RegionMap, file: seq<Byte>, p: nat := 4096)
    requires Compact(mem, keys, regions, p) == Some(file) && k + Bytes(Count(regions, k), p) <= |mem|
    ensures Compact(mem, keys + [k], regions, p) == Some(file + mem[k..k + Bytes(Count(regions, k), p)])
  {
    assert (keys + [k])[..|keys|] == keys;
  }

  lemma NilCompact(mem: seq<Byte>, regions: RegionMap)
    ensures Compact(mem, [], regions) == Some(Pages(mem, Expand([], regions)))
  {
  }

  /** Compaction writes exactly the pages that the regions stand for. */
  lemma {:induction false} CompactWritesPages(mem: seq<Byte>, keys: seq<nat>, regions: RegionMap)
    requires Positive(keys, regions)
    requires Inside(mem, Expand(keys, regions))
    ensures Compact(mem, keys, regions) == Some(Pages(mem, Expand(keys, regions)))
  {
    hide *;
    if keys == [] {
      NilCompact(mem, regions);
    } else {
      var keys', k := keys[..|keys| - 1], keys[|keys| - 1];
      assert keys == keys' + [k];
      PositiveSnoc(keys', k, regions);
      ExpandSnoc(keys', k, regions);
      LastRunInside(mem, Expand(keys', regions), k, Count(regions, k));
      CompactWritesPages(mem, keys', regions);
      PagesRun(mem, k, Count(regions, k));
      PagesAppend(mem, Expand(keys', regions), Run(k, Count(regions, k)));
      CompactSnoc(mem, keys', k, regions, Pages(mem, Expand(keys', regions)));
    }
  }

  /** A registered range of guest addresses and the pages already present in it. */
  datatype Uffd = Uffd(base: nat, size: nat, pages: map<nat, Page>)

  /** The bytes of `src`, page by page, at `dst` and on. */
  function CopyIn(pages: map<nat, Page>, src: seq<Byte>, dst: nat, n: nat, p: nat := 4096): map<nat, Page> {
    if n == 0 then pages
    else CopyIn(pages, src, dst, n - 1, p)[dst + Bytes(n - 1, p) := PageAt(src, Bytes(n - 1, p), p)]
  }

  /** The kernel copies only aligned, non-empty, registered ranges in which nothing is present. */
  predicate CanCopy(u: Uffd, dst: nat, n: nat, p: nat := 4096)
    requires p >= 1
  {
    && n >= 1
    && dst % p == 0
    && u.base <= dst && dst + Bytes(n, p) <= u.base + u.size
    && forall a :: a in Run(dst, n, p) ==> a !in u.pages
  }

  function InstallRegion(u: Uffd, src: seq<Byte>, dst: nat, n: nat, p: nat := 4096): Option<Uffd>
    requires p >= 1
  {
    if CanCopy(u, dst, n, p) then Some(u.(pages := CopyIn(u.pages, src, dst, n, p))) else None
  }

  const WORD: nat := 0x1_0000_0000_0000_0000

  /** Addresses are 64-bit unsigned integers. */
  function Wrap(x: int): nat {
    x % WORD
  }

  datatype Progress = Progress(uffd: Uffd, srcOffset: nat)

  /** The bulk installation: None stands for a source range outside the buffer or a failed copy,
      which both end the process. The place in the buffer advances by pages of 4096 bytes, whatever
      the page size is. The code checks only the first byte of a range; what it does when a range
      starts inside the buffer and ends past it is not modelled; with pages of 4096 bytes no run gets there. */
  function InstallAll(u: Uffd, ws: seq<Byte>, keys: seq<nat>, regions: RegionMap, start: nat, p: nat := 4096): Option<Progress>
    requires p >= 1
  {
    if keys == [] then Some(Progress(u, 0))
    else
      match InstallAll(u, ws, keys[..|keys| - 1], regions, start, p)
      case None => None
      case Some(q) => InstallNext(q, ws, keys[|keys| - 1], Count(regions, keys[|keys| - 1]), start, p)
  }

  function InstallNext(q: Progress, ws: seq<Byte>, k: nat, n: nat, start: nat, p: nat := 4096): Option<Progress>
    requires p >= 1
  {
    if q.srcOffset >= |ws| || q.srcOffset + Bytes(n, p) > |ws| then None
    else
      match InstallRegion(q.uffd, ws[q.srcOffset..], Wrap(start + k), n, p)
      case None => None
      case Some(u) => Some(Progress(u, q.srcOffset + Bytes(n)))
  }

  /** The pages of `mem` at `offs` put in place, one by one, for a guest that starts at `start`. */
  function PutPages(pages: map<nat, Page>, mem: seq<Byte>, start: nat, offs: seq<nat>): map<nat, Page> {
    if offs == [] then pages
    else
      var o := offs[|offs| - 1];
      PutPages(pages, mem, start, offs[..|offs| - 1])[start + o := PageAt(mem, o)]
  }

  lemma PutPagesSnoc(pages: map<nat, Page>, mem: seq<Byte>, start: nat, offs: seq<nat>, o: nat)
    ensures PutPages(pages, mem, start, offs + [o]) == PutPages(pages, mem, start, offs)[start + o := PageAt(mem, o)]
  {
    assert (offs + [o])[..|offs|] == offs;
  }

  lemma {:induction false} PutPagesAppend(pages: map<nat, Page>, mem: seq<Byte>, start: nat, a: seq<nat>, b: seq<nat>)
    ensures PutPages(pages, mem, start, a + b) == PutPages(PutPages(pages, mem, start, a), mem, start, b)
    decreases |b|
  {
    if b == [] {
      assert a + b == a;
    } else {
      var b', o := b[..|b| - 1], b[|b| - 1];
      assert b == b' + [o] && a + b == a + b' + [o];
      PutPagesAppend(pages, mem, start, a, b');
      PutPagesSnoc(pages, mem, start, a + b', o);
    }
  }

  ghost predicate Among(start: nat, offs: seq<nat>, a: nat) {
    a >= start && a - start in offs
  }

  /** Exactly the addressed pages change, and each holds the page of its own offset. */
  lemma {:induction false} PutPagesView(pages: map<nat, Page>, mem: seq<Byte>, start: nat, offs: seq<nat>, a: nat)
    ensures a in PutPages(pages, mem, start, offs) <==> a in pages || Among(start, offs, a)
    ensures Among(start, offs, a) ==> PutPages(pages, mem, start, offs)[a] == PageAt(mem, a - start)
    ensures !Among(start, offs, a) && a in pages ==> PutPages(pages, mem, start, offs)[a] == pages[a]
  {
    if offs != [] {
      var o := offs[|offs| - 1];
      PutPagesView(pages, mem, start, offs[..|offs| - 1], a);
      assert Among(start, offs, a) <==> Among(start, offs[..|offs| - 1], a) || a == start + o;
    }
  }

  lemma CopyInSnoc(pages: map<nat, Page>, src: seq<Byte>, dst: nat, n: nat)
    requires n > 0
    ensures CopyIn(pages, src, dst, n) == CopyIn(pages, src, dst, n - 1)[dst + Bytes(n - 1) := PageAt(src, Bytes(n - 1))]
  {
  }

  lemma NilPuts(pages: map<nat, Page>, mem: seq<Byte>, src: seq<Byte>, start: nat, k: nat)
    ensures CopyIn(pages, src, start + k, 0) == PutPages(pages, mem, start, Run(k, 0)) == pages
  {
  }

  lemma {:induction false} CopyInPuts(pages: map<nat, Page>, mem: seq<Byte>, src: seq<Byte>, start: nat, k: nat, n: nat)
    requires k + Bytes(n) <= |mem| && Bytes(n) <= |src|
    requires src[..Bytes(n)] == mem[k..k + Bytes(n)]
    ensures CopyIn(pages, src, start + k, n) == PutPages(pages, mem, start, Run(k, n))
  {
    hide *;
    if n == 0 {
      NilPuts(pages, mem, src, start, k);
    } else {
      RunSnoc(k, n);
      var m := Bytes(n - 1);
      SliceSlice(src, 0, Bytes(n), 0, m);
      SliceSlice(mem, k, k + Bytes(n), 0, m);
      CopyInPuts(pages, mem, src, start, k, n - 1);
      SliceSlice(src, 0, Bytes(n), m, Bytes(n));
      SliceSlice(mem, k, k + Bytes(n), m, Bytes(n));
      PageIs(src, m);
      PageIs(mem, k + m);
      PutPagesSnoc(pages, mem, start, Run(k, n - 1), k + m);
      CopyInSnoc(pages, src, start + k, n);
      assert start + (k + m) == start + k + m;
    }
  }

  /** The guest range in which a recorded set of pages can be installed. */
  ghost predicate Installable(u: Uffd, mem: seq<Byte>, start: nat, offs: seq<nat>) {
    && Inside(mem, offs) && Aligned(offs) && Distinct(offs)
    && start % 4096 == 0 && u.base <= start && start + |mem| <= u.base + u.size <= WORD
    && forall i :: 0 <= i < |offs| ==> start + offs[i] !in u.pages
  }

  lemma AbsentFromRun(u: Uffd, mem: seq<Byte>, start: nat, a: seq<nat>, k: nat, n: nat, x: nat)
    requires Installable(u, mem, start, a + Run(k, n))
    requires x in Run(start + k, n)
    ensures x !in PutPages(u.pages, mem, start, a)
  {
    hide PutPages;
    var i :| 0 <= i < n && x == Run(start + k, n)[i];
    var s := a + Run(k, n);
    assert s[|a| + i] == Run(k, n)[i] && x == start + s[|a| + i];
    PutPagesView(u.pages, mem, start, a, x);
    assert forall j :: 0 <= j < |a| ==> a[j] == s[j];
  }

  lemma InstallablePrefix(u: Uffd, mem: seq<Byte>, start: nat, a: seq<nat>, k: nat, n: nat)
    requires n >= 1 && Installable(u, mem, start, a + Run(k, n))
    ensures Installable(u, mem, start, a)
    ensures k % 4096 == 0 && k + Bytes(n) <= |mem|
  {
    var s := a + Run(k, n);
    LastRunInside(mem, a, k, n);
    assert s[|a|] == Run(k, n)[0] == k;
    assert forall i :: 0 <= i < |a| ==> s[i] == a[i];
  }

  lemma InstallableBounds(u: Uffd, mem: seq<Byte>, start: nat, a: seq<nat>)
    requires Installable(u, mem, start, a)
    ensures start % 4096 == 0 && u.base <= start && start + |mem| <= u.base + u.size <= WORD
    ensures Inside(mem, a)
  {
  }

  lemma AlignedSum(a: nat, b: nat)
    requires a % 4096 == 0 && b % 4096 == 0
    ensures (a + b) % 4096 == 0
  {
  }

  lemma CopyAllowed(u: Uffd, mem: seq<Byte>, start: nat, a: seq<nat>, k: nat, n: nat)
    requires n >= 1 && Installable(u, mem, start, a + Run(k, n))
    ensures CanCopy(u.(pages := PutPages(u.pages, mem, start, a)), start + k, n)
  {
    InstallablePrefix(u, mem, start, a, k, n);
    InstallableBounds(u, mem, start, a);
    AlignedSum(start, k);
    hide Installable, PutPages, Run, Inside;
    forall x | x in Run(start + k, n) ensures x !in PutPages(u.pages, mem, start, a) {
      AbsentFromRun(u, mem, start, a, k, n, x);
    }
  }

  lemma WrapSmall(x: nat)
    requires x < WORD
    ensures Wrap(x) == x
  {
  }

  lemma SecondChunk<T>(a: seq<T>, b: seq<T>, s: seq<T>)
    requires a + b <= s
    ensures a <= s && |a| + |b| <= |s| && s[|a|..][..|b|] == b
  {
    assert forall i :: 0 <= i < |b| ==> (a + b)[|a| + i] == b[i];
  }

  lemma ChunkOf<T>(a: seq<T>, b: seq<T>, s: seq<T>, m: nat, n: nat)
    requires a + b <= s && |a| == m && |b| == n
    ensures a <= s && m + n <= |s| && s[m..][..n] == b
  {
    SecondChunk(a, b, s);
  }

  lemma PrefixChunk(mem: seq<Byte>, ws: seq<Byte>, a: seq<nat>, k: nat, n: nat)
    requires Inside(mem, a) && k + Bytes(n) <= |mem|
    requires Pages(mem, a + Run(k, n)) <= ws
    ensures Pages(mem, a) <= ws && Bytes(|a|) + Bytes(n) <= |ws|
    ensures ws[Bytes(|a|)..][..Bytes(n)] == mem[k..k + Bytes(n)]
  {
    hide *;
    PagesLength(mem, a);
    SliceLength(mem, k, Bytes(n));
    PagesRun(mem, k, n);
    PagesAppend(mem, a, Run(k, n));
    ChunkOf(Pages(mem, a), mem[k..k + Bytes(n)], ws, Bytes(|a|), Bytes(n));
  }

  /** One region goes in: its pages and no others. */
  lemma InstallStep(u: Uffd, mem: seq<Byte>, ws: seq<Byte>, start: nat, a: seq<nat>, k: nat, n: nat)
    requires n >= 1 && Installable(u, mem, start, a + Run(k, n)) && Pages(mem, a + Run(k, n)) <= ws
    ensures Installable(u, mem, start, a) && Pages(mem, a) <= ws
    ensures InstallNext(Progress(u.(pages := PutPages(u.pages, mem, start, a)), Bytes(|a|)), ws, k, n, start)
         == Some(Progress(u.(pages := PutPages(u.pages, mem, start, a + Run(k, n))), Bytes(|a|) + Bytes(n)))
  {
    hide Installable, CanCopy, CopyIn, PutPages, Pages, Run, Wrap, Inside;
    var pages := PutPages(u.pages, mem, start, a);
    InstallablePrefix(u, mem, start, a, k, n);
    InstallableBounds(u, mem, start, a);
    CopyAllowed(u, mem, start, a, k, n);
    WrapSmall(start + k);
    PrefixChunk(mem, ws, a, k, n);
    CopyInPuts(pages, mem, ws[Bytes(|a|)..], start, k, n);
    PutPagesAppend(u.pages, mem, start, a, Run(k, n));
  }

  lemma InstallAllSnoc(u: Uffd, ws: seq<Byte>, keys: seq<nat>, k: nat, regions: RegionMap, start: nat, q: Progress, p: nat := 4096)
    requires p >= 1 && InstallAll(u, ws, keys, regions, start, p) == Some(q)
    ensures InstallAll(u, ws, keys + [k], regions, start, p) == InstallNext(q, ws, k, Count(regions, k), start, p)
  {
    hide InstallNext;
    assert (keys + [k])[..|keys|] == keys;
  }

  lemma NilInstall(u: Uffd, mem: seq<Byte>, ws: seq<Byte>, regions: RegionMap, start: nat)
    ensures InstallAll(u, ws, [], regions, start)
         == Some(Progress(u.(pages := PutPages(u.pages, mem, start, Expand([], regions))), Bytes(|Expand([], regions)|)))
  {
  }

  lemma BytesAdd(m: nat, n: nat)
    ensures Bytes(m) + Bytes(n) == Bytes(m + n)
  {
  }

  lemma RunLength(k: nat, n: nat)
    ensures |Run(k, n)| == n
  {
  }

  /** Bulk installation from a compacted file, at any base, puts every recorded page in its place,
      touches no other page, and never reads outside the file's buffer. */
  lemma {:induction false} InstallPutsPages(u: Uffd, mem: seq<Byte>, ws: seq<Byte>, keys: seq<nat>, regions: RegionMap, start: nat)
    requires Positive(keys, regions)
    requires Installable(u, mem, start, Expand(keys, regions)) && Pages(mem, Expand(keys, regions)) <= ws
    ensures InstallAll(u, ws, keys, regions, start)
         == Some(Progress(u.(pages := PutPages(u.pages, mem, start, Expand(keys, regions))), Bytes(|Expand(keys, regions)|)))
  {
    hide *;
    if keys == [] {
      NilInstall(u, mem, ws, regions, start);
    } else {
      var keys', k := keys[..|keys| - 1], keys[|keys| - 1];
      var n, e' := Count(regions, k), Expand(keys', regions);
      assert keys == keys' + [k];
      PositiveSnoc(keys', k, regions);
      ExpandSnoc(keys', k, regions);
      InstallStep(u, mem, ws, start, e', k, n);
      InstallPutsPages(u, mem, ws, keys', regions, start);
      InstallAllSnoc(u, ws, keys', k, regions, start, Progress(u.(pages := PutPages(u.pages, mem, start, e')), Bytes(|e'|)));
      BytesAdd(|e'|, n);
      RunLength(k, n);
    }
  }
}
