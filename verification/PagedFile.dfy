/** The write-through page cache of `PagedFile`, against the plain file under it. */
module Paging {
  import opened Bytes
  import opened Disk
  import opened Sequences

  const CACHE_BYTES: nat := 4 * 1024 * 1024

  /** The offset of the first byte of a page. */
  function PageStart(page: nat, pageSize: nat): nat {
    if page == 0 then 0 else PageStart(page - 1, pageSize) + pageSize
  }

  /** A file with a whole page written at `start`, perhaps past its end. */
  function Flushed(file: bytes, start: nat, buffer: bytes): (r: bytes)
    requires start <= |file|
    ensures |r| == Max(|file|, start + |buffer|)
    ensures forall i {:trigger r[i]} :: 0 <= i < |r| ==>
      r[i] == if start <= i < start + |buffer| then buffer[i - start] else file[i]
  {
    seq(Max(|file|, start + |buffer|), i requires 0 <= i < Max(|file|, start + |buffer|) =>
      if start <= i < start + |buffer| then buffer[i - start] else file[i])
  }

  /** The old bytes of the file are overwritten at `offset` as a plain file would be; it may have become longer. */
  ghost predicate Patched(was: bytes, file: bytes, offset: nat, patch: bytes) {
    && offset + |patch| <= |was| <= |file|
    && forall i {:trigger file[i]} :: 0 <= i < |was| ==>
      file[i] == if offset <= i < offset + |patch| then patch[i - offset] else was[i]
  }

  /** The bytes read at `offset` that lie inside the file are those of the file. */
  ghost predicate ReadBack(file: bytes, offset: nat, buffer: bytes) {
    forall i {:trigger buffer[i]} :: 0 <= i < |buffer| && offset + i < |file| ==> buffer[i] == file[offset + i]
  }

  /** A cached page holds what the file holds, wherever the page lies inside the file. */
  ghost predicate Coherent(file: bytes, pageSize: nat, page: nat, buffer: bytes) {
    && |buffer| == pageSize
    && forall j {:trigger buffer[j]} :: 0 <= j < pageSize && PageStart(page, pageSize) + j < |file| ==> buffer[j] == file[PageStart(page, pageSize) + j]
  }

  ghost predicate AllCoherent(file: bytes, pageSize: nat, cache: map<nat, bytes>) {
    forall p :: p in cache ==> Coherent(file, pageSize, p, cache[p])
  }

  /** The list of cached pages names exactly the cached pages, each once, within the capacity. */
  ghost predicate Fifo(cachePages: seq<nat>, cacheMaxPages: nat, cached: set<nat>) {
    && |cachePages| <= cacheMaxPages
    && Distinct(cachePages)
    && forall p :: p in cachePages <==> p in cached
  }

  ghost predicate InFile(page: nat, pageSize: nat, size: nat) {
    PageStart(page, pageSize) + pageSize <= size
  }

  /** The page that holds an offset, that is, the quotient by the page size. */
  function PageOf(offset: nat, pageSize: nat): (page: nat)
    requires pageSize > 0
  {
    if offset < pageSize then 0 else 1 + PageOf(offset - pageSize, pageSize)
  }

  /** The size is a multiple of the page size. */
  predicate IsWhole(size: nat, pageSize: nat)
    requires pageSize > 0
  {
    size == 0 || (size >= pageSize && IsWhole(size - pageSize, pageSize))
  }

  lemma {:induction false} PageArithmetic(offset: nat, pageSize: nat)
    requires pageSize > 0
    ensures PageOf(offset, pageSize) == offset / pageSize
    ensures PageStart(PageOf(offset, pageSize), pageSize) <= offset < PageStart(PageOf(offset, pageSize), pageSize) + pageSize
    ensures offset % pageSize == offset - PageStart(PageOf(offset, pageSize), pageSize)
    ensures IsWhole(offset, pageSize) <==> offset % pageSize == 0
  {
    if offset < pageSize {
      QuotientIsUnique(offset, pageSize, 0, offset);
    } else {
      PageArithmetic(offset - pageSize, pageSize);
      DivideOneMore(offset, pageSize);
    }
  }

  lemma DivideOneMore(offset: nat, pageSize: nat)
    requires pageSize > 0 && offset >= pageSize
    ensures offset / pageSize == (offset - pageSize) / pageSize + 1
    ensures offset % pageSize == (offset - pageSize) % pageSize
  {
    var q, r := (offset - pageSize) / pageSize, (offset - pageSize) % pageSize;
    assert offset - pageSize == q * pageSize + r;
    assert offset == (q + 1) * pageSize + r;
    QuotientIsUnique(offset, pageSize, q + 1, r);
  }

  lemma NextMultiple(p: nat, q: nat, n: nat)
    requires p < q
    ensures p * n + n <= q * n
  {
    assert (p + 1) * n <= q * n;
  }

  lemma QuotientIsUnique(offset: nat, pageSize: nat, q: nat, r: nat)
    requires r < pageSize && offset == q * pageSize + r
    ensures offset / pageSize == q && offset % pageSize == r
  {
    var p: nat, m: nat := offset / pageSize, offset % pageSize;
    assert offset == p * pageSize + m;
    if p < q {
      NextMultiple(p, q, pageSize);
    } else if q < p {
      NextMultiple(q, p, pageSize);
    }
  }

  lemma DifferentPages(p: nat, q: nat, pageSize: nat)
    requires p < q
    ensures PageStart(p, pageSize) + pageSize <= PageStart(q, pageSize)
  {
    if p + 1 < q {
      DifferentPages(p, q - 1, pageSize);
    }
  }

  /** In a file of whole pages, a page that starts inside the file ends inside it. */
  lemma {:induction false} WholePage(page: nat, pageSize: nat, size: nat)
    requires pageSize > 0 && IsWhole(size, pageSize) && PageStart(page, pageSize) < size
    ensures PageStart(page, pageSize) + pageSize <= size
  {
    if page > 0 {
      WholePage(page - 1, pageSize, size - pageSize);
    }
  }

  /** A call on a paged file. */
  datatype FileCall = ReadCall(offset: nat, size: nat) | WriteCall(offset: nat, data: bytes) | GrowCall(pages: nat) | PageSizeCall(size: nat)

  /** What a plain byte file with a page size in force becomes and answers. */
  datatype Flat = Flat(file: bytes, pageSize: nat, answers: seq<bytes>)

  predicate InBounds(f: Flat, call: FileCall) {
    match call
    case ReadCall(offset, size) => offset + size <= |f.file|
    case WriteCall(offset, data) => offset + |data| <= |f.file|
    case GrowCall(_) => true
    case PageSizeCall(size) => 0 < size <= CACHE_BYTES && IsWhole(|f.file|, size)
  }

  function FlatCall(f: Flat, call: FileCall): Flat
    requires InBounds(f, call)
  {
    match call
    case ReadCall(offset, size) => f.(answers := f.answers + [f.file[offset..offset + size]])
    case WriteCall(offset, data) => f.(file := Overwrite(f.file, offset, data))
    case GrowCall(pages) => f.(file := f.file + Fill(pages * f.pageSize, UNINITIALIZED_BYTE))
    case PageSizeCall(size) => f.(pageSize := size)
  }

  predicate AllInBounds(f: Flat, calls: seq<FileCall>)
    decreases |calls|
  {
    calls == [] || (InBounds(f, calls[0]) && AllInBounds(FlatCall(f, calls[0]), calls[1..]))
  }

  function FlatCalls(f: Flat, calls: seq<FileCall>): Flat
    requires AllInBounds(f, calls)
    decreases |calls|
  {
    if calls == [] then f else FlatCalls(FlatCall(f, calls[0]), calls[1..])
  }

  class PagedFile {
    var pageSize: nat
    var cacheMaxPages: nat
    var file: bytes
    var cache: map<nat, bytes>
    var cachePages: seq<nat>
    ghost var history: seq<Io>  // every change made to the file so far

    ghost predicate Valid()
      reads this
    {
      && pageSize > 0
      && cacheMaxPages > 0
      && Fifo(cachePages, cacheMaxPages, cache.Keys)
      && AllCoherent(file, pageSize, cache)
    }

    /** The file is made of whole pages and no page beyond its end is cached. */
    ghost predicate WholePages()
      reads this
    {
      && pageSize > 0
      && IsWhole(|file|, pageSize)
      && forall p :: p in cache ==> InFile(p, pageSize, |file|)
    }

    constructor (contents: bytes)
      ensures Valid()
      ensures IsWhole(|contents|, 4096) ==> WholePages()
      ensures file == contents && pageSize == 4096 && cache == map[] && history == []
    {
      file := contents;
      pageSize := 4096;
      cacheMaxPages := CACHE_BYTES / 4096;
      cache := map[];
      cachePages := [];
      history := [];
    }

    /** Brings the page into the cache, dropping the oldest page when the cache is full. */
    method GetPage(page: nat) returns (buffer: bytes)
      requires Valid()
      modifies this`cache, this`cachePages
      ensures Valid()
      ensures page in cache && buffer == cache[page]
      ensures old(WholePages()) && InFile(page, pageSize, |file|) ==> WholePages()
      ensures old(page in cache) ==> cache == old(cache) && cachePages == old(cachePages)
      ensures old(page !in cache && |cachePages| < cacheMaxPages) ==> cachePages == old(cachePages) + [page]
      ensures old(page !in cache && |cachePages| == cacheMaxPages) ==> cachePages == old(cachePages)[1..] + [page]
    {
      if page in cache {
        return cache[page];
      }
      var start := PageStart(page, pageSize);
      if |cachePages| >= cacheMaxPages {
        var oldest := cachePages[0];
        buffer := cache[oldest];
        cachePages := cachePages[1..];
        cache := cache - {oldest};
        assert Fifo(cachePages, cacheMaxPages - 1, cache.Keys);
      } else {
        // a new buffer has arbitrary contents
        assert |Fill(pageSize, 0)| == pageSize;
        buffer :| |buffer| == pageSize;
      }
      // the file may end inside the page: the rest of the buffer keeps what it held
      var count := if start < |file| then Min(pageSize, |file| - start) else 0;
      if count > 0 {
        buffer := file[start..start + count] + buffer[count..];
      }
      cache := cache[page := buffer];
      cachePages := cachePages + [page];
      assert Coherent(file, pageSize, page, buffer);
    }

    /** Writes a cached page back, as a whole page even when the file ends inside it. */
    method FlushPage(page: nat)
      requires pageSize > 0
      requires page in cache && |cache[page]| == pageSize && PageStart(page, pageSize) <= |file|
      modifies this`file
      ensures file == Flushed(old(file), PageStart(page, pageSize), cache[page])
    {
      file := Flushed(file, PageStart(page, pageSize), cache[page]);
    }

    method SetPageSize(size: nat)
      requires size > 0
      modifies this`cache, this`cachePages, this`pageSize, this`cacheMaxPages
      ensures pageSize == size && cache == map[] && cachePages == [] && cacheMaxPages == CACHE_BYTES / size
      ensures Valid() <==> size <= CACHE_BYTES
    {
      cache := map[];
      cachePages := [];
      pageSize := size;
      cacheMaxPages := CACHE_BYTES / size;
      assert size <= CACHE_BYTES ==> CACHE_BYTES / size >= 1;
    }

    /** Reads across pages; the bytes inside the file are those of the file. */
    method Read(offset: nat, size: nat) returns (buffer: bytes)
      requires Valid()
      modifies this`cache, this`cachePages
      ensures Valid()
      ensures |buffer| == size
      ensures ReadBack(file, offset, buffer)
      ensures offset + size <= |file| ==> buffer == file[offset..offset + size]
      ensures old(WholePages()) && offset + size <= |file| ==> WholePages()
    {
      hide Fifo;
      var remaining := size;
      var pageNumber: nat := offset / pageSize;
      var pageOffset: nat := offset % pageSize;
      PageArithmetic(offset, pageSize);
      buffer := [];
      while remaining > 0
        invariant Valid() && 0 <= remaining <= size && |buffer| == size - remaining
        invariant pageOffset < pageSize
        invariant remaining > 0 ==> PageStart(pageNumber, pageSize) + pageOffset == offset + |buffer|
        invariant remaining > 0 || size == 0
        invariant ReadBack(file, offset, buffer)
        invariant old(WholePages()) && offset + size <= |file| ==> WholePages()
      {
        if WholePages() && offset + size <= |file| {
          WholePage(pageNumber, pageSize, |file|);
        }
        var pageBuffer := GetPage(pageNumber);
        var toRead := Min(remaining, pageSize - pageOffset);
        ReadOn(file, pageSize, pageNumber, pageBuffer, pageOffset, toRead, offset, buffer);
        buffer := buffer + pageBuffer[pageOffset..pageOffset + toRead];
        remaining := remaining - toRead;
        if remaining == 0 {
          break;
        }
        pageNumber := pageNumber + 1;
        pageOffset := 0;
      }
    }

    /**
      Writes through the cache, page by page. The bytes of the old file are overwritten as a
      plain file would be; the file gets longer exactly when it ends inside the last page touched.
      */
    method Write(offset: nat, data: bytes)
      requires Valid()
      requires offset + |data| <= |file|
      modifies this`cache, this`cachePages, this`file, this`history
      ensures Valid()
      ensures |file| == if data == [] then old(|file|)
                        else Max(old(|file|), PageStart(PageOf(offset + |data| - 1, pageSize), pageSize) + pageSize)
      ensures Patched(old(file), file, offset, data)
      ensures IsWhole(old(|file|), pageSize) ==> file == Overwrite(old(file), offset, data)
      ensures old(WholePages()) ==> WholePages()
      ensures history == old(history) + [Put(offset, data)]
    {
      history := history + [Put(offset, data)];
      ghost var was := file;
      WritePages(offset, data);
      WrittenWhole(was, file, offset, data, pageSize);
    }

    /** The loop of `Write` over the pages touched. */
    method WritePages(offset: nat, data: bytes)
      requires Valid()
      requires offset + |data| <= |file|
      modifies this`cache, this`cachePages, this`file
      ensures Valid()
      ensures |file| == if data == [] then old(|file|)
                        else Max(old(|file|), PageStart(PageOf(offset + |data| - 1, pageSize), pageSize) + pageSize)
      ensures Patched(old(file), file, offset, data)
      ensures old(WholePages()) ==> WholePages()
    {
      hide AllCoherent, Fifo;
      var remaining := |data|;
      var pageNumber: nat := offset / pageSize;
      var pageOffset: nat := offset % pageSize;
      PageArithmetic(offset, pageSize);
      var done := 0;  // how far the buffer pointer has moved
      ghost var was := file;
      while remaining > 0
        invariant Valid() && 0 <= remaining <= |data| && done == |data| - remaining
        invariant pageOffset < pageSize
        invariant remaining > 0 ==> PageStart(pageNumber, pageSize) + pageOffset == offset + done
        invariant remaining > 0 || data == []
        invariant |file| == |was| && Patched(was, file, offset, data[..done])
        invariant old(WholePages()) ==> WholePages()
      {
        var toWrite := Min(remaining, pageSize - pageOffset);
        ghost var before := file;
        WritePage(pageNumber, pageOffset, data[done..done + toWrite]);
        PatchOn(was, before, file, offset, data, done, toWrite);
        remaining := remaining - toWrite;
        done := done + toWrite;
        if remaining == 0 {
          LastPage(offset + |data|, pageNumber, pageSize);
          break;
        }
        pageNumber := pageNumber + 1;
        pageOffset := 0;
      }
      assert data[..done] == data;
    }

    /** One round of the write loop: changes bytes of one page in the cache and flushes it. */
    method WritePage(page: nat, pageOffset: nat, patch: bytes)
      requires Valid()
      requires patch != [] && pageOffset + |patch| <= pageSize
      requires PageStart(page, pageSize) + pageOffset + |patch| <= |file|
      modifies this`cache, this`cachePages, this`file
      ensures Valid()
      ensures |file| == Max(old(|file|), PageStart(page, pageSize) + pageSize)
      ensures Patched(old(file), file, PageStart(page, pageSize) + pageOffset, patch)
      ensures old(WholePages()) ==> WholePages() && |file| == old(|file|)
    {
      hide AllCoherent, Coherent, Patched, PageStart, IsWhole, Distinct;
      if WholePages() {
        WholePage(page, pageSize, |file|);
      }
      var pageBuffer := GetPage(page);
      CachedIsCoherent(file, pageSize, cache, page);
      var buffer := Overwrite(pageBuffer, pageOffset, patch);
      PatchedFile(file, pageSize, page, cache[page], pageOffset, patch);
      PatchedCache(file, pageSize, cache, page, pageOffset, patch);
      cache := cache[page := buffer];
      FlushPage(page);
    }

    /** Appends uninitialised pages, behind the back of the cache. */
    method GrowFile(pages: nat)
      requires Valid()
      modifies this`file, this`history
      ensures file == old(file) + Fill(pages * pageSize, UNINITIALIZED_BYTE)
      ensures history == old(history) + [Grow(pages * pageSize)]
      ensures (forall p :: p in cache ==> InFile(p, pageSize, old(|file|))) ==> Valid()
      ensures old(WholePages()) ==> WholePages()
    {
      ghost var was := file;
      file := file + Fill(pages * pageSize, UNINITIALIZED_BYTE);
      history := history + [Grow(pages * pageSize)];
      if forall p :: p in cache ==> InFile(p, pageSize, |was|) {
        forall p | p in cache ensures Coherent(file, pageSize, p, cache[p]) {
          assert Coherent(was, pageSize, p, cache[p]);
        }
      }
      if old(WholePages()) {
        WholePagesAdd(|was|, pages, pageSize);
      }
    }

    /** Any sequence of in-bounds calls answers and leaves what a plain byte file would, whatever is cached or evicted. */
    method CallAll(calls: seq<FileCall>) returns (answers: seq<bytes>)
      requires Valid() && WholePages()
      requires AllInBounds(Flat(file, pageSize, []), calls)
      modifies this
      ensures Valid() && WholePages()
      ensures Flat(file, pageSize, answers) == FlatCalls(old(Flat(file, pageSize, [])), calls)
    {
      answers := [];
      for i := 0 to |calls|
        invariant Valid() && WholePages()
        invariant AllInBounds(Flat(file, pageSize, answers), calls[i..])
        invariant FlatCalls(Flat(file, pageSize, answers), calls[i..]) == FlatCalls(old(Flat(file, pageSize, [])), calls)
      {
        ghost var rest := calls[i..];
        assert rest[0] == calls[i] && rest[1..] == calls[i + 1..];
        match calls[i]
        case ReadCall(offset, size) =>
          var answer := Read(offset, size);
          answers := answers + [answer];
        case WriteCall(offset, data) =>
          Write(offset, data);
        case GrowCall(pages) =>
          GrowFile(pages);
        case PageSizeCall(size) =>
          SetPageSize(size);
      }
    }
  }

  lemma {:induction false} WholePagesAdd(size: nat, pages: nat, pageSize: nat)
    requires pageSize > 0 && IsWhole(size, pageSize)
    ensures IsWhole(size + pages * pageSize, pageSize)
  {
    if pages > 0 {
      WholePagesAdd(size, pages - 1, pageSize);
      assert pages * pageSize == (pages - 1) * pageSize + pageSize;
    }
  }

  /** A file of whole pages is written as a plain file, and does not get longer. */
  lemma WrittenWhole(was: bytes, file: bytes, offset: nat, data: bytes, pageSize: nat)
    requires pageSize > 0 && Patched(was, file, offset, data)
    requires |file| == if data == [] then |was|
                       else Max(|was|, PageStart(PageOf(offset + |data| - 1, pageSize), pageSize) + pageSize)
    ensures IsWhole(|was|, pageSize) ==> file == Overwrite(was, offset, data)
  {
    if IsWhole(|was|, pageSize) {
      if data != [] {
        PageArithmetic(offset + |data| - 1, pageSize);
        WholePage(PageOf(offset + |data| - 1, pageSize), pageSize, |was|);
      }
      assert file == Overwrite(was, offset, data);
    }
  }

  /** Copying from a coherent page reads on in the file. */
  lemma ReadOn(file: bytes, pageSize: nat, page: nat, pageBuffer: bytes, pageOffset: nat, count: nat, offset: nat, buffer: bytes)
    requires Coherent(file, pageSize, page, pageBuffer) && pageOffset + count <= pageSize
    requires PageStart(page, pageSize) + pageOffset == offset + |buffer|
    requires ReadBack(file, offset, buffer)
    ensures ReadBack(file, offset, buffer + pageBuffer[pageOffset..pageOffset + count])
  {
    var r := buffer + pageBuffer[pageOffset..pageOffset + count];
    forall i | 0 <= i < |r| && offset + i < |file| ensures r[i] == file[offset + i] {
      if i >= |buffer| {
        var j := pageOffset + (i - |buffer|);
        assert r[i] == pageBuffer[j];
      }
    }
  }

  lemma PatchOn(was: bytes, before: bytes, file: bytes, offset: nat, data: bytes, done: nat, count: nat)
    requires offset + |data| <= |was| && done + count <= |data| && |before| == |was|
    requires Patched(was, before, offset, data[..done])
    requires Patched(before, file, offset + done, data[done..done + count])
    ensures Patched(was, file, offset, data[..done + count])
  {
  }

  lemma CachedIsCoherent(file: bytes, pageSize: nat, cache: map<nat, bytes>, page: nat)
    requires AllCoherent(file, pageSize, cache) && page in cache
    ensures Coherent(file, pageSize, page, cache[page]) && |cache[page]| == pageSize
  {
  }

  /** Flushing a patched coherent page patches the file. */
  lemma PatchedFile(was: bytes, pageSize: nat, page: nat, buffer: bytes, pageOffset: nat, patch: bytes)
    requires Coherent(was, pageSize, page, buffer)
    requires pageOffset + |patch| <= pageSize && PageStart(page, pageSize) + pageOffset + |patch| <= |was|
    ensures var file := Flushed(was, PageStart(page, pageSize), Overwrite(buffer, pageOffset, patch));
      && Patched(was, file, PageStart(page, pageSize) + pageOffset, patch)
      && Coherent(file, pageSize, page, Overwrite(buffer, pageOffset, patch))
  {
    hide Flushed, Overwrite, PageStart;
    var start := PageStart(page, pageSize);
    var patched := Overwrite(buffer, pageOffset, patch);
    var file := Flushed(was, start, patched);
    forall i | 0 <= i < |was|
      ensures file[i] == if start + pageOffset <= i < start + pageOffset + |patch| then patch[i - (start + pageOffset)] else was[i]
    {
      if start <= i < start + pageSize {
        assert buffer[i - start] == was[start + (i - start)];
        assert file[i] == patched[i - start];
      }
    }
  }

  /** Flushing one page leaves every other cached page coherent, though the file may get longer. */
  lemma OtherPage(was: bytes, pageSize: nat, page: nat, flushed: bytes, other: nat, buffer: bytes)
    requires other != page && Coherent(was, pageSize, other, buffer)
    requires PageStart(page, pageSize) <= |was| && |flushed| == pageSize
    ensures Coherent(Flushed(was, PageStart(page, pageSize), flushed), pageSize, other, buffer)
  {
    if other < page {
      DifferentPages(other, page, pageSize);
    } else {
      DifferentPages(page, other, pageSize);
    }
    var file := Flushed(was, PageStart(page, pageSize), flushed);
    forall j | 0 <= j < pageSize && PageStart(other, pageSize) + j < |file| ensures buffer[j] == file[PageStart(other, pageSize) + j] {
      assert file[PageStart(other, pageSize) + j] == was[PageStart(other, pageSize) + j];
    }
  }

  lemma PatchedCache(was: bytes, pageSize: nat, cache: map<nat, bytes>, page: nat, pageOffset: nat, patch: bytes)
    requires AllCoherent(was, pageSize, cache) && page in cache
    requires pageOffset + |patch| <= pageSize && PageStart(page, pageSize) + pageOffset + |patch| <= |was|
    ensures var patched := Overwrite(cache[page], pageOffset, patch);
      && cache[page := patched].Keys == cache.Keys
      && AllCoherent(Flushed(was, PageStart(page, pageSize), patched), pageSize, cache[page := patched])
  {
    var patched := Overwrite(cache[page], pageOffset, patch);
    var file := Flushed(was, PageStart(page, pageSize), patched);
    var cache' := cache[page := patched];
    PatchedFile(was, pageSize, page, cache[page], pageOffset, patch);
    forall p | p in cache' ensures Coherent(file, pageSize, p, cache'[p]) {
      if p != page {
        OtherPage(was, pageSize, page, patched, p, cache[p]);
      }
    }
  }

  lemma LastPage(end: nat, page: nat, pageSize: nat)
    requires pageSize > 0 && PageStart(page, pageSize) < end <= PageStart(page, pageSize) + pageSize
    ensures PageOf(end - 1, pageSize) == page
  {
    var q := PageOf(end - 1, pageSize);
    PageArithmetic(end - 1, pageSize);
    if q < page {
      DifferentPages(q, page, pageSize);
    } else if page < q {
      DifferentPages(page, q, pageSize);
    }
  }
}
