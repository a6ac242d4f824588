/** Collecting an accepted export page by page. */
module ExportPages {

  datatype Page<R> = Page(runId: string, digest: string, total: int, items: seq<R>)

  datatype Outcome<R> = IdentityMismatch | ExportChanged | PaginationInvalid | Collected(records: seq<R>, total: int)

  const PAGE := 250
  const BOUND := 20_000

  /** `removeprefix("sha256:")` */
  function Bare(digest: string): string {
    if |digest| >= 7 && digest[..7] == "sha256:" then digest[7..] else digest
  }

  /** The page carries the digest, with or without its prefix. */
  predicate SameDigest(d: string, digest: string) {
    d == "sha256:" + digest || (d == digest && !("sha256:" <= d))
  }

  lemma BareIff(d: string, digest: string)
    ensures Bare(d) == digest <==> SameDigest(d, digest)
  {
    assert |d| >= 7 ==> d == d[..7] + d[7..];
    assert d == "sha256:" + digest ==> d[..7] == "sha256:" && d[7..] == digest;
  }

  /** From the records collected so far, with the total the first page announced. */
  function CollectFrom<R>(pages: nat -> Page<R>, runId: string, digest: string, records: seq<R>, total: int,
                          first: bool): Outcome<R>
    requires |records| <= BOUND
    decreases BOUND - |records|
  {
    var page := pages(|records|);
    if page.runId != runId || Bare(page.digest) != digest then IdentityMismatch
    else if !first && page.total != total then ExportChanged
    else
      var all := records + page.items;
      if |all| >= page.total then Collected(all, page.total)
      else if page.items == [] || |all| > BOUND then PaginationInvalid
      else CollectFrom(pages, runId, digest, all, page.total, false)
  }

  method CollectExport<R>(pages: nat -> Page<R>, runId: string, digest: string) returns (r: Outcome<R>)
    ensures r == CollectFrom(pages, runId, digest, [], 0, true)
  {
    var records: seq<R>, total, first := [], 0, true;
    while true
      invariant |records| <= BOUND
      invariant CollectFrom(pages, runId, digest, records, total, first)
                == CollectFrom(pages, runId, digest, [], 0, true)
      decreases BOUND - |records|
    {
      var page := pages(|records|);
      if page.runId != runId || Bare(page.digest) != digest {
        return IdentityMismatch;
      }
      if first {
        total, first := page.total, false;
      } else if total != page.total {
        return ExportChanged;
      }
      records := records + page.items;
      if |records| >= total {
        return Collected(records, total);
      }
      if page.items == [] || |records| > BOUND {
        return PaginationInvalid;
      }
    }
  }

  /** The server answers with the next page of one export. */
  ghost predicate Honest<R(!new)>(pages: nat -> Page<R>, runId: string, digest: string, dataset: seq<R>) {
    forall offset: nat :: offset <= |dataset| ==> HonestAt(pages, runId, digest, dataset, offset)
  }

  predicate HonestAt<R(==)>(pages: nat -> Page<R>, runId: string, digest: string, dataset: seq<R>, offset: nat)
    requires offset <= |dataset|
  {
    var page, end := pages(offset), if offset + PAGE <= |dataset| then offset + PAGE else |dataset|;
    page.runId == runId && SameDigest(page.digest, digest) && page.total == |dataset|
      && page.items == dataset[offset..end]
  }

  lemma {:induction false} HonestFrom<R(!new)>(pages: nat -> Page<R>, runId: string, digest: string, dataset: seq<R>,
                                               k: nat, total: int, first: bool)
    requires Honest(pages, runId, digest, dataset) && k * PAGE <= BOUND && (k * PAGE < |dataset| || k == 0)
    requires first || total == |dataset|
    ensures k * PAGE <= |dataset| && CollectFrom(pages, runId, digest, dataset[..k * PAGE], total, first)
            == if |dataset| <= BOUND + PAGE then Collected(dataset, |dataset|) else PaginationInvalid
    decreases BOUND - k * PAGE
  {
    var offset := k * PAGE;
    assert HonestAt(pages, runId, digest, dataset, offset);
    BareIff(pages(offset).digest, digest);
    var end := if offset + PAGE <= |dataset| then offset + PAGE else |dataset|;
    assert dataset[..offset] + dataset[offset..end] == dataset[..end];
    if end < |dataset| {
      assert end == (k + 1) * PAGE;
      if end <= BOUND {
        HonestFrom(pages, runId, digest, dataset, k + 1, |dataset|, false);
      }
    } else {
      assert dataset[..end] == dataset;
    }
  }

  /** Main result. From a server that gives 250 records a page of one export, the whole export is collected in
      order, exactly when it has at most 20,250 records. */
  lemma WholeExportCollectedIff<R(!new)>(pages: nat -> Page<R>, runId: string, digest: string, dataset: seq<R>)
    requires Honest(pages, runId, digest, dataset)
    ensures CollectFrom(pages, runId, digest, [], 0, true)
            == if |dataset| <= 20_250 then Collected(dataset, |dataset|) else PaginationInvalid
    ensures |dataset| > 250 ==> |pages(0).items| == 250
  {
    HonestFrom(pages, runId, digest, dataset, 0, 0, true);
    assert HonestAt(pages, runId, digest, dataset, 0);
    assert dataset[..0 * PAGE] == [];
  }

  /** The items of the pages, in order. */
  function Joined<R>(ps: seq<Page<R>>): seq<R> {
    if ps == [] then [] else ps[0].items + Joined(ps[1..])
  }

  predicate Names<R>(page: Page<R>, runId: string, digest: string, total: int) {
    page.runId == runId && SameDigest(page.digest, digest) && page.total == total
  }

  /** `ps` are the pages asked for from `offset` on, each at the number of items collected before it, all
      naming one export with one total, and the last one reaches it. */
  ghost predicate OneExport<R(!new)>(pages: nat -> Page<R>, runId: string, digest: string, total: int, offset: nat,
                                     ps: seq<Page<R>>) {
    && ps != [] && offset + |Joined(ps)| >= total
    && forall i :: 0 <= i < |ps| ==>
         && ps[i] == pages(offset + |Joined(ps[..i])|) && Names(ps[i], runId, digest, total)
         && (i > 0 ==> offset + |Joined(ps[..i])| < total)
  }

  lemma OneMorePage<R(!new)>(pages: nat -> Page<R>, runId: string, digest: string, total: int, offset: nat,
                             page: Page<R>, ps: seq<Page<R>>)
    requires page == pages(offset) && Names(page, runId, digest, total) && offset + |page.items| < total
    requires OneExport(pages, runId, digest, total, offset + |page.items|, ps)
    ensures OneExport(pages, runId, digest, total, offset, [page] + ps)
  {
    hide Joined, Names;
    var all := [page] + ps;
    JoinedFront(page, ps, |all|);
    assert all[..|all|] == all && ps[..|ps|] == ps;
    forall i | 0 <= i < |all|
      ensures all[i] == pages(offset + |Joined(all[..i])|) && Names(all[i], runId, digest, total)
      ensures i > 0 ==> offset + |Joined(all[..i])| < total
    {
      if i == 0 {
        NothingJoined(all[..0]);
      } else {
        JoinedFront(page, ps, i);
        NothingJoined(ps[..0]);
        assert all[i] == ps[i - 1];
      }
    }
  }

  lemma NothingJoined<R>(ps: seq<Page<R>>)
    requires ps == []
    ensures Joined(ps) == []
  {
  }

  lemma JoinedFront<R>(page: Page<R>, ps: seq<Page<R>>, i: nat)
    requires 0 < i <= |ps| + 1
    ensures Joined(([page] + ps)[..i]) == page.items + Joined(ps[..i - 1])
  {
    var all := [page] + ps;
    assert all[..i][0] == page && all[..i][1..] == ps[..i - 1];
  }

  lemma LastPage<R(!new)>(pages: nat -> Page<R>, runId: string, digest: string, total: int, offset: nat, page: Page<R>)
    requires page == pages(offset) && Names(page, runId, digest, total) && offset + |page.items| >= total
    ensures Joined([page]) == page.items && OneExport(pages, runId, digest, total, offset, [page])
  {
    JoinedFront(page, [], 1);
    NothingJoined([page][..0]);
    assert [page] + [] == [page] == [page][..1];
  }

  /** Main result. Whatever the server answers, what is collected is what was there before followed by the
      items of the pages asked for, every one of which names this export and announces the same total. */
  lemma {:induction false} CollectedIsOneExport<R(!new)>(pages: nat -> Page<R>, runId: string, digest: string,
                                                         records: seq<R>, total: int, first: bool)
    returns (ps: seq<Page<R>>)
    requires |records| <= BOUND && CollectFrom(pages, runId, digest, records, total, first).Collected?
    requires !first ==> |records| < total
    ensures var r := CollectFrom(pages, runId, digest, records, total, first);
            && r.records == records + Joined(ps) && (!first ==> r.total == total)
            && OneExport(pages, runId, digest, r.total, |records|, ps)
    decreases BOUND - |records|
  {
    hide OneExport, Joined;
    var page := pages(|records|);
    BareIff(page.digest, digest);
    var all := records + page.items;
    if |all| >= page.total {
      LastPage(pages, runId, digest, page.total, |records|, page);
      ps := [page];
    } else {
      var rest := CollectedIsOneExport(pages, runId, digest, all, page.total, false);
      OneMorePage(pages, runId, digest, page.total, |records|, page, rest);
      ps := [page] + rest;
      JoinedFront(page, rest, |ps|);
      assert ps[..|ps|] == ps && rest[..|rest|] == rest;
      assert records + (page.items + Joined(rest)) == all + Joined(rest);
    }
  }
}
