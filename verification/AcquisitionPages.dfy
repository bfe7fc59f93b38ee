/** The page walk of one unit, against a fixed server. */
module AcquisitionPages {
  // The page walk of one unit, against a server that holds one fixed row list per search
  // term: a unit is completed exactly when its pages were walked to the end, and what it then
  // records is the server's list, cut into pages and without repeated ids.

  import opened Wrappers
  import opened Json
  import opened Acquisition

  // ------------------------------------------------------------- removing repeated ids

  lemma {:induction false} IdsFromFirst(a: seq<Json>)
    requires AllHaveIds(a) && a != []
    ensures AllHaveIds(a[1..]) && Ids(a) == {RowId(a[0])} + Ids(a[1..])
  {
    assert a == [a[0]] + a[1..];
  }

  lemma {:induction false} DedupAppend(a: seq<Json>, b: seq<Json>, seen: set<real>)
    requires AllHaveIds(a) && AllHaveIds(b)
    ensures AllHaveIds(a + b)
    ensures Dedup(a + b, seen) == Dedup(a, seen) + Dedup(b, seen + Ids(a))
  {
    if a == [] {
      assert a + b == b;
      assert seen + Ids(a) == seen;
    } else {
      assert (a + b)[0] == a[0] && (a + b)[1..] == a[1..] + b;
      var id := RowId(a[0]);
      IdsFromFirst(a);
      if id in seen {
        DedupAppend(a[1..], b, seen);
        assert seen + Ids(a) == seen + Ids(a[1..]);
      } else {
        DedupAppend(a[1..], b, seen + {id});
        assert seen + {id} + Ids(a[1..]) == seen + Ids(a);
        var first, last := Dedup(a[1..], seen + {id}), Dedup(b, seen + Ids(a));
        assert [a[0]] + (first + last) == [a[0]] + first + last;
      }
    }
  }

  lemma {:induction false} DedupIds(a: seq<Json>, seen: set<real>)
    requires AllHaveIds(a)
    ensures Ids(Dedup(a, seen)) == Ids(a) - seen
  {
    if a != [] {
      var id := RowId(a[0]);
      IdsFromFirst(a);
      if id in seen {
        DedupIds(a[1..], seen);
      } else {
        DedupIds(a[1..], seen + {id});
        var rest := Dedup(a[1..], seen + {id});
        assert Ids([a[0]] + rest) == {id} + Ids(rest);
      }
    }
  }

  /** Removing repeats once and then again, against more known ids, is removing them once. */
  lemma {:induction false} DedupTwice(a: seq<Json>, first: set<real>, seen: set<real>)
    requires AllHaveIds(a) && first <= seen
    ensures Dedup(Dedup(a, first), seen) == Dedup(a, seen)
  {
    if a != [] {
      var id := RowId(a[0]);
      if id in first {
        DedupTwice(a[1..], first, seen);
      } else {
        var rest := Dedup(a[1..], first + {id});
        assert ([a[0]] + rest)[1..] == rest;
        if id in seen {
          DedupTwice(a[1..], first + {id}, seen);
        } else {
          DedupTwice(a[1..], first + {id}, seen + {id});
        }
      }
    }
  }

  /** What the pool keeps: a subsequence with every id of the input, each exactly once. */
  lemma {:induction false} DedupKeepsEachIdOnce(a: seq<Json>, seen: set<real>)
    requires AllHaveIds(a)
    ensures forall i, j | 0 <= i < j < |Dedup(a, seen)| :: RowId(Dedup(a, seen)[i]) != RowId(Dedup(a, seen)[j])
    ensures Ids(Dedup(a, seen)) == Ids(a) - seen
  {
    DedupIds(a, seen);
    if a != [] {
      var id := RowId(a[0]);
      DedupKeepsEachIdOnce(a[1..], if id in seen then seen else seen + {id});
    }
  }

  /** One more recorded page adds to a unit its rows with ids not seen on the pages before. */
  lemma {:induction false} PageAddsRows(pages: seq<PageRecord>, page: PageRecord)
    requires PagesHaveIds(pages) && AllHaveIds(page.rows)
    ensures PagesHaveIds(pages + [page])
    ensures AllHaveIds(AllRows(pages)) && AllHaveIds(AllRows(pages + [page]))
    ensures UnitRows(pages + [page]) == UnitRows(pages) + Dedup(page.rows, Ids(AllRows(pages)))
    ensures Ids(AllRows(pages + [page])) == Ids(AllRows(pages)) + Ids(page.rows)
  {
    AllRowsHaveIds(pages);
    assert (pages + [page])[..|pages|] == pages;
    DedupAppend(AllRows(pages), page.rows, {});
    assert {} + Ids(AllRows(pages)) == Ids(AllRows(pages));
  }

  // ------------------------------------------------------------- the server

  /** The rows a search term matches, in the server's order. */
  type Server = string -> seq<Json>

  ghost predicate Identified(server: Server) {
    forall term :: AllHaveIds(server(term))
  }

  function Clamp(i: int, n: nat): nat {
    if i < 0 then 0 else if i > n then n else i
  }

  /** The page the server has for this offset and limit. */
  function Slice(rows: seq<Json>, offset: int, limit: int): seq<Json>
    requires 0 <= limit
  {
    rows[Clamp(offset, |rows|)..Clamp(offset + limit, |rows|)]
  }

  /** The transport may fail in any way, but a page it delivers is the server's page. */
  ghost predicate Honest(t: Transcript, server: Server) {
    forall k: nat, r: Request {:trigger t(k, r)} | 1 <= r.limit ::
      var p := ReadAnswer(t(k, r), r.limit);
      p.Page? ==> p.rows == Slice(server(r.searchTerm), r.offset, r.limit)
  }

  /** A transport that delivers every page it is asked for. */
  ghost predicate Serves(t: Transcript) {
    forall k: nat, r: Request {:trigger t(k, r)} :: ReadAnswer(t(k, r), r.limit).Page?
  }

  /** An honest page ends the walk exactly when it is short, however emptiness is spelled. */
  lemma {:induction false} EmptySearchIsAShortPage(answer: Answer, limit: int)
    requires 1 <= limit
    ensures var p := ReadAnswer(answer, limit); p.Page? ==> (p.last <==> |p.rows| < limit)
    ensures answer.Response? && IsEmptySearchResponse(answer.status, answer.body) ==>
              ReadAnswer(answer, limit) == ReadAnswer(EmptyPageAnswer(), limit)
  {
    var code := NumberField(Field(EmptyPageAnswer().body, "meta").value, "code");
    assert ListField(EmptyPageAnswer().body, "data") == Some([]);
    assert ValidateEnvelope(EmptyPageAnswer().body) == Rows([]);
  }

  /** `200` with `data: []`. */
  function EmptyPageAnswer(): Answer {
    Response(200, Obj(map["meta" := Obj(map["code" := Num(200.0)]), "data" := Arr([])]))
  }

  // ------------------------------------------------------------- the walk

  /** How many requests prove that `n` rows are all there are: the last page is short. */
  function PageCount(n: nat, limit: int): (count: nat)
    requires 1 <= limit
    ensures count >= 1
  {
    if n < limit then 1 else 1 + PageCount(n - limit, limit)
  }

  lemma {:induction false} MultipleIsFar(d: int, limit: int)
    requires 1 <= limit
    ensures d >= 1 ==> d * limit >= limit
    ensures d <= -1 ==> d * limit <= -limit
  {
  }

  lemma {:induction false} SameQuotient(limit: int, p: int, m: int, q: int, r: int)
    requires 0 <= m < limit && 0 <= r < limit && p * limit + m == q * limit + r
    ensures p == q
  {
    assert (q - p) * limit == m - r;
    MultipleIsFar(q - p, limit);
  }

  lemma {:induction false} QuotientIsUnique(n: nat, limit: int, q: int, r: int)
    requires 1 <= limit && n == q * limit + r && 0 <= r < limit
    ensures n / limit == q
  {
    SameQuotient(limit, n / limit, n % limit, q, r);
  }

  lemma {:induction false} PageCountIsQuotient(n: nat, limit: int)
    requires 1 <= limit
    ensures PageCount(n, limit) == n / limit + 1
  {
    if n >= limit {
      PageCountIsQuotient(n - limit, limit);
      var q := (n - limit) / limit;
      assert (q + 1) * limit == q * limit + limit;
      QuotientIsUnique(n, limit, q + 1, (n - limit) % limit);
    } else {
      QuotientIsUnique(n, limit, 0, n);
    }
  }

  /** The offset of page `i`. */
  function Offset(i: nat, limit: int): int {
    if i == 0 then 0 else Offset(i - 1, limit) + limit
  }

  lemma {:induction false} OffsetIsProduct(i: nat, limit: int)
    ensures Offset(i, limit) == i * limit
  {
    if i > 0 {
      OffsetIsProduct(i - 1, limit);
    }
  }

  function ChunkAt(rows: seq<Json>, limit: int, i: nat): PageRecord
    requires 1 <= limit
  {
    PageRecord(Offset(i, limit), Slice(rows, Offset(i, limit), limit))
  }

  /** The server's whole list, cut at 0, L, 2L, ...; the last page is the short one. */
  function Chunks(rows: seq<Json>, limit: int): seq<PageRecord>
    requires 1 <= limit
  {
    seq(PageCount(|rows|, limit), i requires 0 <= i => ChunkAt(rows, limit, i))
  }

  lemma {:induction false} ChunkIsShort(n: nat, limit: int, i: nat)
    requires 1 <= limit && i < PageCount(n, limit)
    ensures 0 <= Offset(i, limit) <= n
    ensures i + 1 == PageCount(n, limit) <==> n < Offset(i, limit) + limit
  {
    if i > 0 {
      ChunkIsShort(n - limit, limit, i - 1);
    }
  }

  lemma {:induction false} AllRowsOfChunks(rows: seq<Json>, limit: int, i: nat)
    requires 1 <= limit && i <= PageCount(|rows|, limit)
    ensures AllRows(Chunks(rows, limit)[..i]) == rows[..Clamp(Offset(i, limit), |rows|)]
  {
    if i == 0 {
      assert Chunks(rows, limit)[..0] == [] && rows[..0] == [];
    } else {
      AllRowsOfChunks(rows, limit, i - 1);
      OneChunkMore(rows, limit, i - 1);
      SliceExtends(rows, Offset(i - 1, limit), limit);
    }
  }

  lemma {:induction false} OneChunkMore(rows: seq<Json>, limit: int, i: nat)
    requires 1 <= limit && i < PageCount(|rows|, limit)
    ensures AllRows(Chunks(rows, limit)[..i + 1]) == AllRows(Chunks(rows, limit)[..i]) + Slice(rows, Offset(i, limit), limit)
  {
    ExtendChunks(rows, limit, i);
    RowsOneMore(Chunks(rows, limit)[..i], ChunkAt(rows, limit, i));
  }

  lemma {:induction false} RowsOneMore(pages: seq<PageRecord>, page: PageRecord)
    ensures AllRows(pages + [page]) == AllRows(pages) + page.rows
  {
    assert (pages + [page])[..|pages|] == pages;
  }

  lemma {:induction false} SliceExtends(rows: seq<Json>, offset: int, limit: int)
    requires 0 <= limit
    ensures rows[..Clamp(offset, |rows|)] + Slice(rows, offset, limit) == rows[..Clamp(offset + limit, |rows|)]
  {
  }

  lemma {:induction false} ChunksKeepIds(rows: seq<Json>, limit: int)
    requires 1 <= limit
    ensures AllHaveIds(rows) ==> PagesHaveIds(Chunks(rows, limit))
  {
  }

  /** The recorded pages of a completed unit hold the server's rows, all of them and in order. */
  lemma {:induction false} ChunksAreComplete(rows: seq<Json>, limit: int)
    requires 1 <= limit
    ensures AllRows(Chunks(rows, limit)) == rows
    ensures AllHaveIds(rows) ==> PagesHaveIds(Chunks(rows, limit))
  {
    var count := PageCount(|rows|, limit);
    ChunksKeepIds(rows, limit);
    AllRowsOfChunks(rows, limit, count);
    ChunkIsShort(|rows|, limit, count - 1);
    TakeAll(Chunks(rows, limit));
    TakeAll(rows);
  }

  lemma {:induction false} ExtendChunks(rows: seq<Json>, limit: int, i: nat)
    requires 1 <= limit && i < PageCount(|rows|, limit)
    ensures Chunks(rows, limit)[..i] + [ChunkAt(rows, limit, i)] == Chunks(rows, limit)[..i + 1]
  {
  }

  /** One delivered page extends the recorded pages by the server's next one. */
  lemma {:induction false} HonestStep(t: Transcript, server: Server, u: AcquisitionUnit, k: nat, i: nat)
    requires 1 <= u.limit && Honest(t, server)
    requires i < PageCount(|server(u.searchTerm)|, u.limit)
    ensures var rows := server(u.searchTerm);
            var p := ReadAnswer(t(k, Request(u.searchTerm, u.limit, Offset(i, u.limit))), u.limit);
            p.Page? ==>
              && (p.last <==> i + 1 == PageCount(|rows|, u.limit))
              && Chunks(rows, u.limit)[..i] + [PageRecord(Offset(i, u.limit), p.rows)] == Chunks(rows, u.limit)[..i + 1]
  {
    var rows := server(u.searchTerm);
    ChunkIsShort(|rows|, u.limit, i);
    EmptySearchIsAShortPage(t(k, Request(u.searchTerm, u.limit, Offset(i, u.limit))), u.limit);
    ExtendChunks(rows, u.limit, i);
  }

  /** One turn of the walk at page `i`: it halts, ends with all pages, or goes on to the next one. */
  lemma {:induction false} HonestTurn(t: Transcript, server: Server, u: AcquisitionUnit, maxPages: int, k: nat, i: nat)
    requires 1 <= u.limit && Honest(t, server)
    requires i < PageCount(|server(u.searchTerm)|, u.limit)
    ensures var all := Chunks(server(u.searchTerm), u.limit);
            var p := ReadAnswer(t(k, Request(u.searchTerm, u.limit, Offset(i, u.limit))), u.limit);
            var w := Walk(t, u, maxPages, k, Offset(i, u.limit), all[..i]);
            && (i >= maxPages ==> w == Halted(INCOMPLETE_RESULT_SET, None, k))
            && (p.Refused? ==> w.Halted?)
            && (i < maxPages && p.Page? && p.last ==> i + 1 == |all| && w == Exhausted(all, k + 1))
            && (p.Page? && !p.last ==> i + 1 < |all|)
            && (i < maxPages && p.Page? && !p.last ==> w == Walk(t, u, maxPages, k + 1, Offset(i + 1, u.limit), all[..i + 1]))
  {
    var all := Chunks(server(u.searchTerm), u.limit);
    HonestStep(t, server, u, k, i);
    TakeAll(all);
  }

  /** Whatever goes wrong on the way, a unit that completes recorded exactly the server's pages. */
  lemma {:induction false} HonestWalk(t: Transcript, server: Server, u: AcquisitionUnit, maxPages: int, k: nat, i: nat)
    requires 1 <= u.limit && Honest(t, server)
    requires i < PageCount(|server(u.searchTerm)|, u.limit)
    ensures var rows := server(u.searchTerm);
            var w := Walk(t, u, maxPages, k, Offset(i, u.limit), Chunks(rows, u.limit)[..i]);
            w.Exhausted? ==>
              && w.pages == Chunks(rows, u.limit)
              && w.requests == k + PageCount(|rows|, u.limit) - i
              && PageCount(|rows|, u.limit) <= maxPages
    decreases PageCount(|server(u.searchTerm)|, u.limit) - i
  {
    HonestTurn(t, server, u, maxPages, k, i);
    if i + 1 < PageCount(|server(u.searchTerm)|, u.limit) {
      HonestWalk(t, server, u, maxPages, k + 1, i + 1);
    }
  }

  /** A delivered page is the last one exactly when the server has no further page. */
  lemma {:induction false} ServedPage(t: Transcript, server: Server, u: AcquisitionUnit, k: nat, i: nat)
    requires 1 <= u.limit && Honest(t, server) && Serves(t)
    requires i < PageCount(|server(u.searchTerm)|, u.limit)
    ensures var p := ReadAnswer(t(k, Request(u.searchTerm, u.limit, Offset(i, u.limit))), u.limit);
            p.Page? && (p.last <==> i + 1 == PageCount(|server(u.searchTerm)|, u.limit))
  {
    HonestStep(t, server, u, k, i);
  }

  /** Below the ceiling a walk that has a further page to come goes on. */
  lemma {:induction false} ServedGoesOn(t: Transcript, server: Server, u: AcquisitionUnit, maxPages: int, k: nat, i: nat)
    requires 1 <= u.limit && Honest(t, server) && Serves(t)
    requires i < maxPages && i + 1 < PageCount(|server(u.searchTerm)|, u.limit)
    ensures Walk(t, u, maxPages, k, Offset(i, u.limit), Chunks(server(u.searchTerm), u.limit)[..i])
         == Walk(t, u, maxPages, k + 1, Offset(i + 1, u.limit), Chunks(server(u.searchTerm), u.limit)[..i + 1])
  {
    ServedPage(t, server, u, k, i);
    HonestTurn(t, server, u, maxPages, k, i);
  }

  lemma {:induction false} ServedEnds(t: Transcript, server: Server, u: AcquisitionUnit, maxPages: int, k: nat, i: nat)
    requires 1 <= u.limit && Honest(t, server) && Serves(t)
    requires i < maxPages && i + 1 == PageCount(|server(u.searchTerm)|, u.limit)
    ensures Walk(t, u, maxPages, k, Offset(i, u.limit), Chunks(server(u.searchTerm), u.limit)[..i]).Exhausted?
  {
    ServedPage(t, server, u, k, i);
    HonestTurn(t, server, u, maxPages, k, i);
  }

  /** When every page is delivered, only the page ceiling can stop the walk. */
  lemma {:induction false} ServedWalk(t: Transcript, server: Server, u: AcquisitionUnit, maxPages: nat, k: nat, i: nat)
    requires 1 <= u.limit && Honest(t, server) && Serves(t)
    requires i < PageCount(|server(u.searchTerm)|, u.limit) && i <= maxPages
    ensures var rows := server(u.searchTerm);
            var w := Walk(t, u, maxPages, k, Offset(i, u.limit), Chunks(rows, u.limit)[..i]);
            if PageCount(|rows|, u.limit) <= maxPages then w.Exhausted?
            else w == Halted(INCOMPLETE_RESULT_SET, None, k + maxPages - i)
  {
    if PageCount(|server(u.searchTerm)|, u.limit) <= maxPages {
      ServedWalkEnds(t, server, u, maxPages, k, i);
    } else {
      ServedWalkStops(t, server, u, maxPages, k, i);
    }
  }

  lemma {:induction false} ServedWalkEnds(t: Transcript, server: Server, u: AcquisitionUnit, maxPages: nat, k: nat,
                                          i: nat)
    requires 1 <= u.limit && Honest(t, server) && Serves(t)
    requires i < PageCount(|server(u.searchTerm)|, u.limit) <= maxPages
    ensures Walk(t, u, maxPages, k, Offset(i, u.limit), Chunks(server(u.searchTerm), u.limit)[..i]).Exhausted?
    decreases maxPages - i
  {
    if i + 1 < PageCount(|server(u.searchTerm)|, u.limit) {
      ServedGoesOn(t, server, u, maxPages, k, i);
      ServedWalkEnds(t, server, u, maxPages, k + 1, i + 1);
    } else {
      ServedEnds(t, server, u, maxPages, k, i);
    }
  }

  lemma {:induction false} ServedWalkStops(t: Transcript, server: Server, u: AcquisitionUnit, maxPages: nat, k: nat,
                                           i: nat)
    requires 1 <= u.limit && Honest(t, server) && Serves(t)
    requires i <= maxPages < PageCount(|server(u.searchTerm)|, u.limit)
    ensures Walk(t, u, maxPages, k, Offset(i, u.limit), Chunks(server(u.searchTerm), u.limit)[..i])
         == Halted(INCOMPLETE_RESULT_SET, None, k + maxPages - i)
    decreases maxPages - i
  {
    if i < maxPages {
      ServedGoesOn(t, server, u, maxPages, k, i);
      ServedWalkStops(t, server, u, maxPages, k + 1, i + 1);
    } else {
      CeilingReached(t, u, maxPages, k, Offset(i, u.limit), Chunks(server(u.searchTerm), u.limit)[..i]);
    }
  }

  lemma {:induction false} CeilingReached(t: Transcript, u: AcquisitionUnit, maxPages: nat, k: nat, offset: int,
                                          pages: seq<PageRecord>)
    requires |pages| == maxPages
    ensures Walk(t, u, maxPages, k, offset, pages) == Halted(INCOMPLETE_RESULT_SET, None, k)
  {
  }

  /**
   * With limit L >= 1, n matching rows and page ceiling P >= 0: a served unit completes exactly
   * when n/L + 1 <= P, after exactly n/L + 1 requests at offsets 0, L, 2L, ..., holding the n rows
   * without repeated ids; otherwise it stops as INCOMPLETE_RESULT_SET after exactly P requests.
   */
  lemma {:induction false} UnitCompletesExactlyWhenItsPagesFit(t: Transcript, server: Server, u: AcquisitionUnit,
      maxPages: nat)
    requires 1 <= u.limit && Honest(t, server) && Identified(server) && Serves(t)
    ensures var rows := server(u.searchTerm);
            var w := WalkUnit(t, u, maxPages, 0);
            && (w.Exhausted? <==> |rows| / u.limit + 1 <= maxPages)
            && (w.Exhausted? ==>
                  && w.requests == |rows| / u.limit + 1
                  && |w.pages| == w.requests
                  && (forall i | 0 <= i < |w.pages| :: w.pages[i].offset == i * u.limit)
                  && Acquired(u, w.pages).rows == Dedup(rows, {}))
            && (w.Halted? ==> w == Halted(INCOMPLETE_RESULT_SET, None, maxPages))
  {
    var rows := server(u.searchTerm);
    assert Chunks(rows, u.limit)[..0] == [];
    HonestWalk(t, server, u, maxPages, 0, 0);
    ServedWalk(t, server, u, maxPages, 0, 0);
    ChunksAreComplete(rows, u.limit);
    PageCountIsQuotient(|rows|, u.limit);
    forall i: nat { OffsetIsProduct(i, u.limit); }
  }
}
