/**
  Key naming of the batch splitter (utils/split_hcfa_batch.py): every
  `.pdf` batch in the input folder gets a 1-based batch number in listing
  order, each of its pages a 1-based page number, and page `p` of batch `b`
  is stored under `<output><run date>/<bb>_<ppp>.pdf`; the batch itself is
  moved to the archive folder. Reading and writing PDFs is not modelled:
  the number of pages of each batch is a parameter.
 */
module SplitKeys {
  import opened Base
  import opened Text
  import opened Dates

  const InputPrefix: string := "data/batches/"
  const OutputPrefix: string := "data/pdf/"
  const ArchivePrefix: string := "data/batches/archived/"

  // ---------------------------------------------------------------------
  // Page keys
  // ---------------------------------------------------------------------

  /** The folder of one run: the output prefix and the run date. */
  function RunFolder(prefix: string, runDate: string): string
  {
    prefix + runDate + "/"
  }

  /** `f"{OUTPUT_PREFIX}{run_date}/{batch_idx:02d}_{page_idx:03d}.pdf"`. */
  function PageKey(prefix: string, runDate: string, batch: nat, page: nat): (k: string)
    ensures StartsWith(k, RunFolder(prefix, runDate)) && EndsWith(k, ".pdf")
    ensures |k| >= |RunFolder(prefix, runDate)| + 10
  {
    var folder := RunFolder(prefix, runDate);
    var name := ZeroPad(batch, 2) + "_" + ZeroPad(page, 3);
    var k := folder + name + ".pdf";
    assert k[..|folder|] == folder;
    assert k[|k| - 4..] == ".pdf";
    k
  }

  /** The part of a page key between the run folder and `.pdf`. */
  lemma PageKeyName(prefix: string, runDate: string, batch: nat, page: nat)
    ensures var k := PageKey(prefix, runDate, batch, page);
      k[|RunFolder(prefix, runDate)|..|k| - 4] == ZeroPad(batch, 2) + "_" + ZeroPad(page, 3)
  {
    var folder := RunFolder(prefix, runDate);
    var name := ZeroPad(batch, 2) + "_" + ZeroPad(page, 3);
    assert PageKey(prefix, runDate, batch, page) == folder + name + ".pdf";
    assert (folder + name + ".pdf")[|folder|..|folder| + |name|] == name;
  }

  /** Index of the first `_` in `s`, or `|s|` when there is none. */
  function FirstUnderscore(s: string): (i: nat)
    ensures i <= |s|
    ensures i < |s| ==> s[i] == '_'
    ensures forall j :: 0 <= j < i ==> s[j] != '_'
  {
    if s == [] then 0
    else if s[0] == '_' then 0
    else 1 + FirstUnderscore(s[1..])
  }

  /** Reads the batch and page numbers back from a key of the given run. */
  function ParsePageKey(prefix: string, runDate: string, k: string): (r: Option<(nat, nat)>)
  {
    var folder := RunFolder(prefix, runDate);
    if !StartsWith(k, folder) || !EndsWith(k, ".pdf") || |k| < |folder| + 4 then None
    else
      var name := k[|folder|..|k| - 4];
      var u := FirstUnderscore(name);
      if u == |name| then None
      else
        var b, p := name[..u], name[u + 1..];
        if b == [] || p == [] || !AllDigits(b) || !AllDigits(p) then None
        else Some((ParseDigits(b), ParseDigits(p)))
  }

  lemma DigitsHaveNoUnderscore(s: string, j: int)
    requires AllDigits(s) && 0 <= j < |s|
    ensures s[j] != '_'
  {
  }

  /** Splitting `a + "_" + b` at its first `_` gives back `a` and `b` when `a`
      holds no `_`. */
  lemma SplitAtUnderscore(a: string, b: string)
    requires AllDigits(a)
    ensures FirstUnderscore(a + "_" + b) == |a|
    ensures (a + "_" + b)[..|a|] == a && (a + "_" + b)[|a| + 1..] == b
  {
    var s := a + "_" + b;
    var u := FirstUnderscore(s);
    assert s[|a|] == '_';
  }

  /** Both numbers can be read back from a page key. */
  lemma ParsePageKeyRoundTrip(prefix: string, runDate: string, batch: nat, page: nat)
    ensures ParsePageKey(prefix, runDate, PageKey(prefix, runDate, batch, page)) == Some((batch, page))
  {
    var a, b := ZeroPad(batch, 2), ZeroPad(page, 3);
    PageKeyName(prefix, runDate, batch, page);
    SplitAtUnderscore(a, b);
  }

  /** Within one run, different (batch, page) pairs never share a key. */
  lemma PageKeyInjective(prefix: string, runDate: string, b1: nat, p1: nat, b2: nat, p2: nat)
    requires PageKey(prefix, runDate, b1, p1) == PageKey(prefix, runDate, b2, p2)
    ensures b1 == b2 && p1 == p2
  {
    ParsePageKeyRoundTrip(prefix, runDate, b1, p1);
    ParsePageKeyRoundTrip(prefix, runDate, b2, p2);
  }

  /** Zero-padding is a minimum width: a batch number from 10 and a page
      number from 100 on are written in full, never truncated. */
  lemma WideNumbersKept(prefix: string, runDate: string, batch: nat, page: nat)
    requires batch >= Pow10(1) && page >= Pow10(2)
    ensures PageKey(prefix, runDate, batch, page) ==
      RunFolder(prefix, runDate) + NatToString(batch) + "_" + NatToString(page) + ".pdf"
  {
    PadWide(batch, 2, 1);
    PadWide(page, 3, 2);
  }

  /** A number of at least `10^k` has more than `k` digits. */
  lemma {:induction false} NatToStringAtLeast(n: nat, k: nat)
    requires Pow10(k) <= n
    ensures |NatToString(n)| > k
  {
    if k > 0 {
      NatToStringAtLeast(n / 10, k - 1);
    }
  }

  /** A number of at least `10^k` is padded to `k + 1` digits without any zero. */
  lemma PadWide(n: nat, w: nat, k: nat)
    requires w == k + 1 && Pow10(k) <= n
    ensures ZeroPad(n, w) == NatToString(n)
  {
    NatToStringAtLeast(n, k);
    var s := ZeroPad(n, w);
    assert s == s[|s| - |NatToString(n)|..];
  }

  // ---------------------------------------------------------------------
  // Run date
  // ---------------------------------------------------------------------

  /** `datetime.now().strftime("%Y%m%d")` for the given day. */
  function RunDate(today: Date): (s: string)
    requires ValidDate(today)
    ensures |s| == 8 && AllDigits(s)
    ensures ParseDate(s) == Some(today)
  {
    ParseRender(IsoCompact, today);
    CompactShape(today);
    Render(IsoCompact, today)
  }

  lemma CompactShape(d: Date)
    requires ValidDate(d)
    ensures |Render(IsoCompact, d)| == 8 && AllDigits(Render(IsoCompact, d))
  {
    PadWidths(d);
    var y, m, dd := ZeroPad(d.year, 4), ZeroPad(d.month, 2), ZeroPad(d.day, 2);
    var s := y + m + dd;
    assert Render(IsoCompact, d) == s;
    forall i | 0 <= i < 8 ensures IsDigit(s[i]) {
      if i < 4 { assert s[i] == y[i]; }
      else if i < 6 { assert s[i] == m[i - 4]; }
      else { assert s[i] == dd[i - 6]; }
    }
  }

  // ---------------------------------------------------------------------
  // The run plan
  // ---------------------------------------------------------------------

  /** The (batch, page) numbers the two `enumerate(..., start=1)` loops
      produce, given the page count of each batch in order. */
  function Slots(counts: seq<nat>): (r: seq<(nat, nat)>)
    ensures forall i :: 0 <= i < |r| ==> 1 <= r[i].0 <= |counts|
  {
    if counts == [] then []
    else
      var n := |counts|;
      Slots(counts[..n - 1]) + seq(counts[n - 1], j => (n, j + 1))
  }

  predicate Before(x: (nat, nat), y: (nat, nat))
  {
    x.0 < y.0 || (x.0 == y.0 && x.1 < y.1)
  }

  /** Batches in listing order, pages in page order. */
  predicate StrictlyOrdered(s: seq<(nat, nat)>)
  {
    forall i, j :: 0 <= i < j < |s| ==> Before(s[i], s[j])
  }

  lemma {:induction false} SlotsOrdered(counts: seq<nat>)
    ensures StrictlyOrdered(Slots(counts))
  {
    if counts != [] {
      var n := |counts|;
      var init := counts[..n - 1];
      SlotsOrdered(init);
      var a := Slots(init);
      var b: seq<(nat, nat)> := seq(counts[n - 1], j => (n, j + 1));
      forall i, j | 0 <= i < j < |a + b| ensures Before((a + b)[i], (a + b)[j]) {
        if j < |a| {
          assert (a + b)[i] == a[i] && (a + b)[j] == a[j];
        } else if i < |a| {
          assert (a + b)[i] == a[i] && (a + b)[j] == b[j - |a|];
        } else {
          assert (a + b)[i] == b[i - |a|] && (a + b)[j] == b[j - |a|];
        }
      }
    }
  }

  /** A (batch, page) pair occurs exactly when the batch exists and has that page. */
  lemma {:induction false} SlotsExactly(counts: seq<nat>, b: nat, p: nat)
    ensures (b, p) in Slots(counts) <==> 1 <= b <= |counts| && 1 <= p <= counts[b - 1]
  {
    if counts != [] {
      var n := |counts|;
      var init := counts[..n - 1];
      SlotsExactly(init, b, p);
      var tail: seq<(nat, nat)> := seq(counts[n - 1], j => (n, j + 1));
      assert Slots(counts) == Slots(init) + tail;
      if b == n && 1 <= p <= counts[n - 1] {
        assert tail[p - 1] == (b, p);
      }
      if (b, p) in tail {
        var j :| 0 <= j < |tail| && tail[j] == (b, p);
      }
    }
  }

  /** What one run does: the page keys uploaded in order, and each batch
      moved to its archive key. */
  datatype Plan = Plan(pages: seq<string>, archived: seq<(string, string)>)

  /** The archive key of a batch (`batch_key.replace(INPUT_PREFIX, ARCHIVE_PREFIX)`). */
  function Archived(batchKey: string): string
  {
    ArchiveKey(batchKey, InputPrefix, ArchivePrefix)
  }

  /** The page count of each batch, in order. */
  function Counts(batches: seq<string>, pageCount: string -> nat): (c: seq<nat>)
    ensures |c| == |batches|
    ensures forall i :: 0 <= i < |batches| ==> c[i] == pageCount(batches[i])
  {
    seq(|batches|, i requires 0 <= i < |batches| => pageCount(batches[i]))
  }

  /** The page keys of the given (batch, page) numbers, in order. */
  function PageKeys(prefix: string, runDate: string, slots: seq<(nat, nat)>): (keys: seq<string>)
    ensures |keys| == |slots|
    ensures forall i :: 0 <= i < |slots| ==> keys[i] == PageKey(prefix, runDate, slots[i].0, slots[i].1)
  {
    seq(|slots|, i requires 0 <= i < |slots| => PageKey(prefix, runDate, slots[i].0, slots[i].1))
  }

  /** A key is produced exactly for the numbers in the list. */
  lemma PageKeysExactly(prefix: string, runDate: string, slots: seq<(nat, nat)>, b: nat, p: nat)
    ensures PageKey(prefix, runDate, b, p) in PageKeys(prefix, runDate, slots) <==> (b, p) in slots
  {
    var keys := PageKeys(prefix, runDate, slots);
    if PageKey(prefix, runDate, b, p) in keys {
      var i :| 0 <= i < |keys| && keys[i] == PageKey(prefix, runDate, b, p);
      PageKeyInjective(prefix, runDate, slots[i].0, slots[i].1, b, p);
    }
    if (b, p) in slots {
      var i :| 0 <= i < |slots| && slots[i] == (b, p);
      assert keys[i] == PageKey(prefix, runDate, b, p);
    }
  }

  /** `main()` and `split_and_upload` over a listing; `pageCount` stands for
      the page count of each downloaded batch. */
  function RunPlan(prefix: string, runDate: string, listing: seq<string>, pageCount: string -> nat): (plan: Plan)
    ensures |plan.archived| == |KeysEndingWith(listing, ".pdf")|
  {
    var batches := KeysEndingWith(listing, ".pdf");
    Plan(
      PageKeys(prefix, runDate, Slots(Counts(batches, pageCount))),
      seq(|batches|, i requires 0 <= i < |batches| => (batches[i], Archived(batches[i]))))
  }

  /** No page key is uploaded twice in one run. */
  lemma RunPlanDistinct(prefix: string, runDate: string, listing: seq<string>, pageCount: string -> nat, i: nat, j: nat)
    requires i < j < |RunPlan(prefix, runDate, listing, pageCount).pages|
    ensures RunPlan(prefix, runDate, listing, pageCount).pages[i] != RunPlan(prefix, runDate, listing, pageCount).pages[j]
  {
    var slots := Slots(Counts(KeysEndingWith(listing, ".pdf"), pageCount));
    SlotsOrdered(Counts(KeysEndingWith(listing, ".pdf"), pageCount));
    assert Before(slots[i], slots[j]);
    if PageKey(prefix, runDate, slots[i].0, slots[i].1) == PageKey(prefix, runDate, slots[j].0, slots[j].1) {
      PageKeyInjective(prefix, runDate, slots[i].0, slots[i].1, slots[j].0, slots[j].1);
    }
  }

  /** Page `p` of the `b`-th `.pdf` in the listing (both 1-based) is
      uploaded exactly when that batch has at least `p` pages. */
  lemma RunPlanPages(prefix: string, runDate: string, listing: seq<string>, pageCount: string -> nat, b: nat, p: nat)
    ensures var batches := KeysEndingWith(listing, ".pdf");
      PageKey(prefix, runDate, b, p) in RunPlan(prefix, runDate, listing, pageCount).pages <==>
        1 <= b <= |batches| && 1 <= p <= pageCount(batches[b - 1])
  {
    var counts := Counts(KeysEndingWith(listing, ".pdf"), pageCount);
    SlotsExactly(counts, b, p);
    PageKeysExactly(prefix, runDate, Slots(counts), b, p);
  }

  /** Every listed `.pdf` batch, and nothing else, is archived, under its archive key. */
  lemma RunPlanArchives(prefix: string, runDate: string, listing: seq<string>, pageCount: string -> nat, k: string)
    ensures (k, Archived(k)) in RunPlan(prefix, runDate, listing, pageCount).archived <==>
      k in listing && EndsWith(Lower(k), ".pdf")
  {
    var batches := KeysEndingWith(listing, ".pdf");
    var archived := RunPlan(prefix, runDate, listing, pageCount).archived;
    if k in batches {
      var i :| 0 <= i < |batches| && batches[i] == k;
      assert archived[i] == (k, Archived(k));
    }
  }
}
