/**
  The per-claim decision of `process_matches` (utils/map_to_fm.py): read
  the patient name and the dates of service from a claim document, scan
  every order for a close name and a date of service within two weeks,
  break ties among several candidates by CPT-code overlap and then by
  name score, and write the winning order's identifiers into the claim.

  The two fuzzy name scorers are parameters with results in 0..100; the
  composite test `(sort + set) / 2 >= 90` is stated as `sort + set >= 180`.
 */
module ClaimMatch {
  import opened Base
  import opened Text
  import opened Json
  import opened NameKey
  import opened Dates

  type Percent = x: int | 0 <= x <= 100

  /** A fuzzy string scorer such as `token_sort_ratio` or `token_set_ratio`. */
  type Scorer = (string, string) -> Percent

  /** Largest number of days between a claim date and an order date that still matches. */
  const MaxDayGap := 14

  /** Twice the smallest composite name score that makes an order a candidate (2 * 90). */
  const MinScoreSum := 180

  /** The `DOS_List` cell of an order: its parsed dates of service as day
      numbers, or NaN when the order has no line item with a valid date. */
  datatype DosCell = DosList(days: seq<int>) | NaN

  /** An order row; `patientKey` is its already normalized `PatientName`. */
  datatype Order = Order(orderId: string, fmNumber: Json, patientKey: string, dos: DosCell)

  /** A line-item row: its order and its CPT code, if any. */
  datatype LineItem = LineItem(orderId: string, cpt: Option<string>)

  /** An order whose name and dates matched, with its two name scores. */
  datatype Candidate = Candidate(order: Order, tokenSort: Percent, tokenSet: Percent)

  function ScoreSum(c: Candidate): int
  {
    c.tokenSort + c.tokenSet
  }

  // ---------------------------------------------------------------------
  // CPT codes of an order
  // ---------------------------------------------------------------------

  /** Line item `it` belongs to order `orderId` and carries code `c` (after `strip()`). */
  predicate ItemHasCpt(it: LineItem, orderId: string, c: string)
  {
    it.orderId == orderId && it.cpt.Some? && Strip(it.cpt.value) == c
  }

  /** `get_cpts_for_order`: the stripped CPT codes of the order's line items. */
  function CptsForOrder(orderId: string, items: seq<LineItem>): set<string>
  {
    if items == [] then {}
    else
      var rest := CptsForOrder(orderId, items[1..]);
      if items[0].orderId == orderId && items[0].cpt.Some? then {Strip(items[0].cpt.value)} + rest else rest
  }

  /** A code is in the set exactly when some line item of the order carries it. */
  lemma {:induction false} CptsForOrderExactly(orderId: string, items: seq<LineItem>, c: string)
    ensures c in CptsForOrder(orderId, items) <==> exists i :: 0 <= i < |items| && ItemHasCpt(items[i], orderId, c)
  {
    if items != [] {
      CptsForOrderExactly(orderId, items[1..], c);
      if c in CptsForOrder(orderId, items[1..]) {
        var i :| 0 <= i < |items[1..]| && ItemHasCpt(items[1..][i], orderId, c);
        assert ItemHasCpt(items[i + 1], orderId, c);
      }
      if exists i :: 0 <= i < |items| && ItemHasCpt(items[i], orderId, c) {
        var i :| 0 <= i < |items| && ItemHasCpt(items[i], orderId, c);
        if i > 0 {
          assert ItemHasCpt(items[1..][i - 1], orderId, c);
        }
      }
    }
  }

  // ---------------------------------------------------------------------
  // Dates: one order against the claim
  // ---------------------------------------------------------------------

  predicate Close(claimDay: int, orderDay: int)
  {
    -MaxDayGap <= claimDay - orderDay <= MaxDayGap
  }

  /** The date loops for one order: a pair within the gap was found, none
      was, or a claim date that did not parse (None) was subtracted, which
      raises. */
  datatype PairOutcome = NoPair | Pair | PairRaises

  /** The nested loops over claim dates and order dates, the first claim
      date first; the subtraction only happens when there are order dates. */
  function PairScan(claimDays: seq<Option<int>>, orderDays: seq<int>): PairOutcome
  {
    if claimDays == [] || orderDays == [] then NoPair
    else if claimDays[0].None? then PairRaises
    else if exists j :: 0 <= j < |orderDays| && Close(claimDays[0].value, orderDays[j]) then Pair
    else PairScan(claimDays[1..], orderDays)
  }

  /** Some claim date, reached before any unparsed one, is close to some order date. */
  predicate ReachablePair(claimDays: seq<Option<int>>, orderDays: seq<int>)
  {
    exists i, j :: 0 <= i < |claimDays| && 0 <= j < |orderDays| &&
      (forall k :: 0 <= k <= i ==> claimDays[k].Some?) && Close(claimDays[i].value, orderDays[j])
  }

  /** The date loops find a pair exactly when one is reachable. */
  lemma {:induction false} PairScanFinds(claimDays: seq<Option<int>>, orderDays: seq<int>)
    ensures PairScan(claimDays, orderDays) == Pair <==> ReachablePair(claimDays, orderDays)
  {
    if claimDays == [] || orderDays == [] {
    } else if claimDays[0].None? {
    } else if exists j :: 0 <= j < |orderDays| && Close(claimDays[0].value, orderDays[j]) {
      var j :| 0 <= j < |orderDays| && Close(claimDays[0].value, orderDays[j]);
      assert forall k :: 0 <= k <= 0 ==> claimDays[k].Some?;
    } else {
      var tail := claimDays[1..];
      PairScanFinds(tail, orderDays);
      if ReachablePair(tail, orderDays) {
        var i, j :| 0 <= i < |tail| && 0 <= j < |orderDays| &&
          (forall k :: 0 <= k <= i ==> tail[k].Some?) && Close(tail[i].value, orderDays[j]);
        assert forall k :: 0 <= k <= i + 1 ==> claimDays[k].Some? by {
          forall k | 0 <= k <= i + 1 ensures claimDays[k].Some? {
            if k > 0 { assert claimDays[k] == tail[k - 1]; }
          }
        }
        assert Close(claimDays[i + 1].value, orderDays[j]);
      }
      if ReachablePair(claimDays, orderDays) {
        var i, j :| 0 <= i < |claimDays| && 0 <= j < |orderDays| &&
          (forall k :: 0 <= k <= i ==> claimDays[k].Some?) && Close(claimDays[i].value, orderDays[j]);
        assert i > 0;
        assert forall k :: 0 <= k <= i - 1 ==> tail[k].Some? by {
          forall k | 0 <= k <= i - 1 ensures tail[k].Some? {
            assert tail[k] == claimDays[k + 1];
          }
        }
        assert Close(tail[i - 1].value, orderDays[j]);
      }
    }
  }

  predicate AllParsed(claimDays: seq<Option<int>>)
  {
    forall i :: 0 <= i < |claimDays| ==> claimDays[i].Some?
  }

  /** When every claim date parsed, the date loops never raise. */
  lemma {:induction false} PairScanParsedNoRaise(claimDays: seq<Option<int>>, orderDays: seq<int>)
    requires AllParsed(claimDays)
    ensures PairScan(claimDays, orderDays) != PairRaises
  {
    if claimDays != [] && orderDays != [] {
      assert claimDays[0].Some?;
      PairScanParsedNoRaise(claimDays[1..], orderDays);
    }
  }

  /** The nested date loops, leaving both as soon as a pair is found. */
  method MatchDates(claimDays: seq<Option<int>>, orderDays: seq<int>) returns (r: PairOutcome)
    ensures r == PairScan(claimDays, orderDays)
  {
    var i := 0;
    while i < |claimDays|
      invariant 0 <= i <= |claimDays|
      invariant PairScan(claimDays, orderDays) == PairScan(claimDays[i..], orderDays)
    {
      var j := 0;
      while j < |orderDays|
        invariant 0 <= j <= |orderDays|
        invariant j > 0 ==> claimDays[i].Some?
        invariant j > 0 ==> forall k :: 0 <= k < j ==> !Close(claimDays[i].value, orderDays[k])
      {
        if claimDays[i].None? {
          return PairRaises;
        }
        if Close(claimDays[i].value, orderDays[j]) {
          return Pair;
        }
        j := j + 1;
      }
      var rest := claimDays[i..];
      assert rest[0] == claimDays[i] && rest[1..] == claimDays[i + 1..];
      if orderDays != [] {
        assert claimDays[i].Some?;
        assert !exists k :: 0 <= k < |orderDays| && Close(rest[0].value, orderDays[k]);
        assert PairScan(rest, orderDays) == PairScan(rest[1..], orderDays);
      }
      i := i + 1;
    }
    return NoPair;
  }

  // ---------------------------------------------------------------------
  // The scan over all orders
  // ---------------------------------------------------------------------

  /** What one order contributes to the scan. */
  datatype OrderVerdict = Skip | Keep(cand: Candidate) | OrderRaises

  /** One pass of the order loop: a low name score skips the order; an
      empty date list skips it; a NaN date cell is truthy, so iterating it
      raises as soon as the claim has a date; otherwise the order is kept
      when the date loops find a pair. */
  function EvalOrder(name: string, claimDays: seq<Option<int>>, o: Order, sortR: Scorer, setR: Scorer): OrderVerdict
  {
    var st, se := sortR(name, o.patientKey), setR(name, o.patientKey);
    if st + se < MinScoreSum then Skip
    else match o.dos
      case NaN => if claimDays == [] then Skip else OrderRaises
      case DosList(days) =>
        if days == [] then Skip
        else match PairScan(claimDays, days)
          case NoPair => Skip
          case Pair => Keep(Candidate(o, st, se))
          case PairRaises => OrderRaises
  }

  /** An order is kept exactly when its composite name score reaches 90 and
      a claim date lies within 14 days of one of its dates. */
  lemma KeepExactly(name: string, claimDays: seq<Option<int>>, o: Order, sortR: Scorer, setR: Scorer)
    ensures EvalOrder(name, claimDays, o, sortR, setR).Keep? <==>
      sortR(name, o.patientKey) + setR(name, o.patientKey) >= MinScoreSum &&
      o.dos.DosList? && ReachablePair(claimDays, o.dos.days)
    ensures EvalOrder(name, claimDays, o, sortR, setR).Keep? ==>
      EvalOrder(name, claimDays, o, sortR, setR).cand == Candidate(o, sortR(name, o.patientKey), setR(name, o.patientKey))
  {
    if o.dos.DosList? {
      PairScanFinds(claimDays, o.dos.days);
    }
  }

  datatype ScanResult = Found(cands: seq<Candidate>) | ScanRaises

  /** The scan over the orders in table order, collecting at most one
      candidate per order; the first raising order aborts it. */
  function Scan(name: string, claimDays: seq<Option<int>>, orders: seq<Order>, sortR: Scorer, setR: Scorer): ScanResult
  {
    if orders == [] then Found([])
    else match Scan(name, claimDays, orders[..|orders| - 1], sortR, setR)
      case ScanRaises => ScanRaises
      case Found(cs) =>
        match EvalOrder(name, claimDays, orders[|orders| - 1], sortR, setR)
        case Skip => Found(cs)
        case Keep(c) => Found(cs + [c])
        case OrderRaises => ScanRaises
  }

  function Combine(a: ScanResult, b: ScanResult): ScanResult
  {
    if a.Found? && b.Found? then Found(a.cands + b.cands) else ScanRaises
  }

  /** The scan of two tables one after the other is the scan of the first
      followed by the scan of the second: candidates keep table order and
      each order is judged on its own. */
  lemma {:induction false} ScanAppend(name: string, claimDays: seq<Option<int>>, a: seq<Order>, b: seq<Order>, sortR: Scorer, setR: Scorer)
    ensures Scan(name, claimDays, a + b, sortR, setR) ==
      Combine(Scan(name, claimDays, a, sortR, setR), Scan(name, claimDays, b, sortR, setR))
  {
    if b == [] {
      assert a + b == a;
    } else {
      var b' := b[..|b| - 1];
      assert (a + b)[..|a + b| - 1] == a + b';
      assert (a + b)[|a + b| - 1] == b[|b| - 1];
      ScanAppend(name, claimDays, a, b', sortR, setR);
      var sa, sb := Scan(name, claimDays, a, sortR, setR), Scan(name, claimDays, b', sortR, setR);
      if sa.Found? && sb.Found? {
        match EvalOrder(name, claimDays, b[|b| - 1], sortR, setR)
        case Keep(c) =>
          assert sa.cands + (sb.cands + [c]) == (sa.cands + sb.cands) + [c];
        case _ =>
      }
    }
  }

  /** A table of one order: the order's own verdict. */
  lemma ScanSingle(name: string, claimDays: seq<Option<int>>, o: Order, sortR: Scorer, setR: Scorer)
    ensures Scan(name, claimDays, [o], sortR, setR) ==
      match EvalOrder(name, claimDays, o, sortR, setR)
      case Skip => Found([])
      case Keep(c) => Found([c])
      case OrderRaises => ScanRaises
  {
    assert [o][..0] == [];
  }

  /** The scan raises exactly when some order raises. */
  lemma {:induction false} ScanRaisesExactly(name: string, claimDays: seq<Option<int>>, orders: seq<Order>, sortR: Scorer, setR: Scorer)
    ensures Scan(name, claimDays, orders, sortR, setR) == ScanRaises <==>
      exists k :: 0 <= k < |orders| && EvalOrder(name, claimDays, orders[k], sortR, setR) == OrderRaises
  {
    if orders != [] {
      var init := orders[..|orders| - 1];
      ScanRaisesExactly(name, claimDays, init, sortR, setR);
      if exists k :: 0 <= k < |init| && EvalOrder(name, claimDays, init[k], sortR, setR) == OrderRaises {
        var k :| 0 <= k < |init| && EvalOrder(name, claimDays, init[k], sortR, setR) == OrderRaises;
        assert orders[k] == init[k];
      }
      if exists k :: 0 <= k < |orders| && EvalOrder(name, claimDays, orders[k], sortR, setR) == OrderRaises {
        var k :| 0 <= k < |orders| && EvalOrder(name, claimDays, orders[k], sortR, setR) == OrderRaises;
        if k < |init| {
          assert init[k] == orders[k];
        }
      }
    }
  }

  /** Every candidate comes from an order of the table and is that order's verdict. */
  lemma {:induction false} ScanSound(name: string, claimDays: seq<Option<int>>, orders: seq<Order>, sortR: Scorer, setR: Scorer)
    requires Scan(name, claimDays, orders, sortR, setR).Found?
    ensures var cs := Scan(name, claimDays, orders, sortR, setR).cands;
      |cs| <= |orders| &&
      forall n :: 0 <= n < |cs| ==>
        (exists k :: 0 <= k < |orders| && EvalOrder(name, claimDays, orders[k], sortR, setR) == Keep(cs[n]))
  {
    if orders != [] {
      var init := orders[..|orders| - 1];
      ScanSound(name, claimDays, init, sortR, setR);
      var cs := Scan(name, claimDays, orders, sortR, setR).cands;
      var ci := Scan(name, claimDays, init, sortR, setR).cands;
      forall n | 0 <= n < |cs|
        ensures exists k :: 0 <= k < |orders| && EvalOrder(name, claimDays, orders[k], sortR, setR) == Keep(cs[n])
      {
        if n < |ci| {
          assert cs[n] == ci[n];
          var k :| 0 <= k < |init| && EvalOrder(name, claimDays, init[k], sortR, setR) == Keep(ci[n]);
          assert orders[k] == init[k];
        } else {
          assert EvalOrder(name, claimDays, orders[|orders| - 1], sortR, setR) == Keep(cs[n]);
        }
      }
    }
  }

  /** Every kept order yields a candidate. */
  lemma {:induction false} ScanComplete(name: string, claimDays: seq<Option<int>>, orders: seq<Order>, sortR: Scorer, setR: Scorer, k: nat)
    requires Scan(name, claimDays, orders, sortR, setR).Found?
    requires k < |orders| && EvalOrder(name, claimDays, orders[k], sortR, setR).Keep?
    ensures EvalOrder(name, claimDays, orders[k], sortR, setR).cand in Scan(name, claimDays, orders, sortR, setR).cands
  {
    var init := orders[..|orders| - 1];
    if k < |init| {
      assert init[k] == orders[k];
      ScanComplete(name, claimDays, init, sortR, setR, k);
    }
  }

  /** The order loop: scores every order, runs the date loops for those
      whose composite score reaches 90, and collects the kept ones. */
  method CollectCandidates(name: string, claimDays: seq<Option<int>>, orders: seq<Order>, sortR: Scorer, setR: Scorer)
    returns (r: ScanResult)
    ensures r == Scan(name, claimDays, orders, sortR, setR)
  {
    var found: seq<Candidate> := [];
    var i := 0;
    while i < |orders|
      invariant 0 <= i <= |orders|
      invariant Scan(name, claimDays, orders[..i], sortR, setR) == Found(found)
    {
      var o := orders[i];
      assert orders[..i + 1][..i] == orders[..i];
      var tokenSort, tokenSet := sortR(name, o.patientKey), setR(name, o.patientKey);
      if tokenSort + tokenSet >= MinScoreSum {
        match o.dos {
          case NaN =>
            if claimDays != [] {
              RaisingPrefix(name, claimDays, orders, i + 1, sortR, setR);
              return ScanRaises;
            }
          case DosList(days) =>
            if days != [] {
              var p := MatchDates(claimDays, days);
              if p == PairRaises {
                RaisingPrefix(name, claimDays, orders, i + 1, sortR, setR);
                return ScanRaises;
              }
              if p == Pair {
                found := found + [Candidate(o, tokenSort, tokenSet)];
              }
            }
        }
      }
      i := i + 1;
    }
    assert orders[..i] == orders;
    return Found(found);
  }

  /** Once a prefix of the table raises, the whole scan raises. */
  lemma RaisingPrefix(name: string, claimDays: seq<Option<int>>, orders: seq<Order>, n: nat, sortR: Scorer, setR: Scorer)
    requires n <= |orders| && Scan(name, claimDays, orders[..n], sortR, setR) == ScanRaises
    ensures Scan(name, claimDays, orders, sortR, setR) == ScanRaises
  {
    assert orders == orders[..n] + orders[n..];
    ScanAppend(name, claimDays, orders[..n], orders[n..], sortR, setR);
  }

  // ---------------------------------------------------------------------
  // Tie-break among several candidates
  // ---------------------------------------------------------------------

  /** A candidate with its CPT-overlap count, the key being
      `(cptScore, composite score)`. */
  datatype Ranked = Ranked(cand: Candidate, cptScore: nat)

  /** `a`'s key is lexicographically at most `b`'s. */
  predicate RankLe(a: Ranked, b: Ranked)
  {
    a.cptScore < b.cptScore || (a.cptScore == b.cptScore && ScoreSum(a.cand) <= ScoreSum(b.cand))
  }

  function RankOf(c: Candidate, claimCpts: set<string>, items: seq<LineItem>): Ranked
  {
    Ranked(c, |claimCpts * CptsForOrder(c.order.orderId, items)|)
  }

  /** The enriched list: each candidate, in order, with its overlap count. */
  function RankAll(cands: seq<Candidate>, claimCpts: set<string>, items: seq<LineItem>): (rs: seq<Ranked>)
    ensures |rs| == |cands|
    ensures forall k :: 0 <= k < |cands| ==> rs[k] == RankOf(cands[k], claimCpts, items)
  {
    if cands == [] then []
    else
      var init := cands[..|cands| - 1];
      assert forall k :: 0 <= k < |init| ==> init[k] == cands[k];
      RankAll(init, claimCpts, items) + [RankOf(cands[|cands| - 1], claimCpts, items)]
  }

  predicate Descending(rs: seq<Ranked>)
  {
    forall i :: 0 < i < |rs| ==> RankLe(rs[i], rs[i - 1])
  }

  /** Inserts `x` in front of the first element whose key is not above
      its own, so that among equal keys the one inserted later comes first. */
  function InsertDesc(x: Ranked, s: seq<Ranked>): (r: seq<Ranked>)
    requires Descending(s)
    ensures |r| == |s| + 1
    ensures r[0] == if s == [] || RankLe(s[0], x) then x else s[0]
    ensures Descending(r)
    ensures multiset(r) == multiset(s) + multiset{x}
  {
    if s == [] || RankLe(s[0], x) then [x] + s
    else
      assert s == [s[0]] + s[1..];
      [s[0]] + InsertDesc(x, s[1..])
  }

  /** `list.sort(reverse=True, key=...)`: descending by key and a
      permutation of the input. Of the sort's stability, the loop relies
      only on which entry comes first; `SortHeadIsFirstMax` proves that
      it is the earliest entry with the greatest key. */
  function SortDesc(rs: seq<Ranked>): (r: seq<Ranked>)
    ensures |r| == |rs|
    ensures Descending(r)
    ensures multiset(r) == multiset(rs)
  {
    if rs == [] then []
    else
      assert rs == [rs[0]] + rs[1..];
      InsertDesc(rs[0], SortDesc(rs[1..]))
  }

  /** The position of the first element with the greatest key. */
  function FirstMaxIndex(rs: seq<Ranked>): (m: nat)
    requires rs != []
    ensures m < |rs|
    ensures forall i :: 0 <= i < |rs| ==> RankLe(rs[i], rs[m])
    ensures forall i :: 0 <= i < m ==> !RankLe(rs[m], rs[i])
  {
    if |rs| == 1 then 0
    else
      var m := FirstMaxIndex(rs[1..]);
      assert forall i :: 1 <= i < |rs| ==> rs[i] == rs[1..][i - 1];
      if RankLe(rs[1 + m], rs[0]) then 0 else 1 + m
  }

  /** The head of the stably sorted list is the earliest candidate with the
      greatest `(cptScore, composite)` key: full ties go to scan order. */
  lemma {:induction false} SortHeadIsFirstMax(rs: seq<Ranked>)
    requires rs != []
    ensures SortDesc(rs)[0] == rs[FirstMaxIndex(rs)]
  {
    if |rs| > 1 {
      var tail := rs[1..];
      SortHeadIsFirstMax(tail);
      var m := FirstMaxIndex(tail);
      assert rs[1 + m] == tail[m];
    }
  }

  /** The head of the sorted enriched list is the first candidate of
      highest rank. */
  lemma SortHeadCandidate(cands: seq<Candidate>, claimCpts: set<string>, items: seq<LineItem>)
    requires cands != []
    ensures var rs := RankAll(cands, claimCpts, items);
      SortDesc(rs)[0].cand == cands[FirstMaxIndex(rs)]
  {
    var rs := RankAll(cands, claimCpts, items);
    SortHeadIsFirstMax(rs);
    var m := FirstMaxIndex(rs);
    assert rs[m].cand == cands[m];
  }

  lemma RankAllStep(cands: seq<Candidate>, k: nat, claimCpts: set<string>, items: seq<LineItem>)
    requires k < |cands|
    ensures RankAll(cands[..k + 1], claimCpts, items) == RankAll(cands[..k], claimCpts, items) + [RankOf(cands[k], claimCpts, items)]
  {
    assert cands[..k + 1][..k] == cands[..k];
  }

  /** The enrichment loop and the sort: the candidate that heads the list
      sorted by `(cptScore, composite)`, descending. */
  method PickBest(cands: seq<Candidate>, claimCpts: set<string>, items: seq<LineItem>) returns (best: Candidate)
    requires cands != []
    ensures best == cands[FirstMaxIndex(RankAll(cands, claimCpts, items))]
    ensures best == SortDesc(RankAll(cands, claimCpts, items))[0].cand
  {
    var enriched: seq<Ranked> := [];
    for k := 0 to |cands|
      invariant enriched == RankAll(cands[..k], claimCpts, items)
    {
      var dbCpts := CptsForOrder(cands[k].order.orderId, items);
      RankAllStep(cands, k, claimCpts, items);
      enriched := enriched + [Ranked(cands[k], |claimCpts * dbCpts|)];
    }
    assert cands[..|cands|] == cands;
    SortHeadCandidate(cands, claimCpts, items);
    best := SortDesc(enriched)[0].cand;
  }

  // ---------------------------------------------------------------------
  // Reading the claim document
  // ---------------------------------------------------------------------

  /** `json_data.get("patient_info", {}).get("patient_name", "")`; None
      when either `.get` is applied to something that is not a dict. */
  function ClaimName(doc: Json): (r: Option<Json>)
    ensures r.Some? <==> doc.Obj? && ("patient_info" !in doc.fields || doc.fields["patient_info"].Obj?)
    ensures doc.Obj? && "patient_info" !in doc.fields ==> r == Some(Str(""))
    ensures r.Some? && "patient_info" in doc.fields ==>
      r == Some(Get(doc.fields["patient_info"].fields, "patient_name", Str("")))
  {
    if !doc.Obj? then None
    else
      var info := Get(doc.fields, "patient_info", Obj(map[]));
      if info.Obj? then Some(Get(info.fields, "patient_name", Str(""))) else None
  }

  /** The normalized claim name; None when normalizing raises. */
  function ClaimKey(doc: Json): (r: Option<string>)
    ensures r.Some? ==> ClaimName(doc).Some? && Some(r.value) == NormalizeValue(ClaimName(doc).value)
  {
    match ClaimName(doc)
    case None => None
    case Some(v) => NormalizeValue(v)
  }

  /** What iterating `json_data.get("service_lines", [])` yields. A list
      yields its items; an empty string or dict yields nothing; anything
      else raises, at once or at the first `.get` on a character or key. */
  function ServiceEntries(fields: map<string, Json>): (r: Option<seq<Json>>)
    ensures "service_lines" !in fields ==> r == Some([])
    ensures "service_lines" in fields && fields["service_lines"].Arr? ==> r == Some(fields["service_lines"].items)
    ensures r.Some? && "service_lines" in fields && !fields["service_lines"].Arr? ==> r == Some([])
    ensures r.Some? <==> ("service_lines" !in fields || fields["service_lines"].Arr?
                          || fields["service_lines"] == Str("") || fields["service_lines"] == Obj(map[]))
  {
    match Get(fields, "service_lines", Arr([]))
    case Arr(items) => Some(items)
    case Str(s) => if s == "" then Some([]) else None
    case Obj(m) => if m == map[] then Some([]) else None
    case _ => None
  }

  /** The day number of a date string, or None when `parse_date` gives None. */
  function DayOf(s: string): (r: Option<int>)
    ensures r.Some? <==> ParseDate(s).Some?
  {
    match ParseDate(s)
    case None => None
    case Some(d) => Some(DayNumber(d))
  }

  /** An entry the date comprehension can read without raising: a dict
      whose `date_of_service`, when truthy, is a string. */
  predicate DateEntryOk(e: Json)
  {
    e.Obj? && var raw := Get(e.fields, "date_of_service", Str(""));
      Truthy(raw) ==> raw.Str?
  }

  /** The claim's `dos_list`: `parse_date` of each truthy `date_of_service`,
      in order, kept even when it is None; None when the comprehension raises. */
  function ClaimDays(entries: seq<Json>): (r: Option<seq<Option<int>>>)
    ensures r.Some? <==> forall i :: 0 <= i < |entries| ==> DateEntryOk(entries[i])
    ensures r.Some? ==> |r.value| <= |entries|
  {
    if entries == [] then Some([])
    else
      var rest := ClaimDays(entries[1..]);
      assert forall i :: 1 <= i < |entries| ==> entries[i] == entries[1..][i - 1];
      if !entries[0].Obj? || rest.None? then None
      else
        var raw := Get(entries[0].fields, "date_of_service", Str(""));
        if !Truthy(raw) then rest
        else if raw.Str? then Some([DayOf(raw.s)] + rest.value)
        else None
  }

  /** An entry the comprehension's `if` keeps: a dict with a truthy
      `date_of_service`. */
  predicate Dated(e: Json)
  {
    e.Obj? && Truthy(Get(e.fields, "date_of_service", Str("")))
  }

  /** The date text of an entry, "" when it has no string date. */
  function DateText(e: Json): string
  {
    if e.Obj? && Get(e.fields, "date_of_service", Str("")).Str? then Get(e.fields, "date_of_service", Str("")).s
    else ""
  }

  /** The entries that reach `parse_date`, in order. */
  function DatedEntries(entries: seq<Json>): (r: seq<Json>)
    ensures |r| <= |entries|
    ensures forall e :: e in r <==> e in entries && Dated(e)
  {
    if entries == [] then []
    else
      assert forall e :: e in entries <==> e == entries[0] || e in entries[1..];
      (if Dated(entries[0]) then [entries[0]] else []) + DatedEntries(entries[1..])
  }

  /** When the comprehension does not raise, `dos_list` holds one entry per
      dated service line, in order: `parse_date` of that line's date. */
  lemma {:induction false} ClaimDaysExactly(entries: seq<Json>)
    requires ClaimDays(entries).Some?
    ensures var ds := ClaimDays(entries).value; var dated := DatedEntries(entries);
      |ds| == |dated| && forall i :: 0 <= i < |ds| ==> ds[i] == DayOf(DateText(dated[i]))
  {
    if entries != [] {
      var rest := entries[1..];
      ClaimDaysExactly(rest);
      var ds, dsRest := ClaimDays(entries).value, ClaimDays(rest).value;
      var dated, datedRest := DatedEntries(entries), DatedEntries(rest);
      if Dated(entries[0]) {
        assert ds == [DayOf(DateText(entries[0]))] + dsRest;
        assert dated == [entries[0]] + datedRest;
        forall i | 0 < i < |ds|
          ensures ds[i] == DayOf(DateText(dated[i]))
        {
          assert ds[i] == dsRest[i - 1];
          assert dated[i] == datedRest[i - 1];
        }
      } else {
        assert ds == dsRest;
        assert dated == datedRest;
      }
    }
  }

  /** The code a service line contributes to the claim's CPT set, if any. */
  function CptOf(e: Json): Option<string>
  {
    if !e.Obj? then None
    else
      var c := Get(e.fields, "cpt_code", Null);
      if Truthy(c) && c.Str? then Some(Strip(c.s)) else None
  }

  /** A line the CPT comprehension can read without raising: a dict whose
      `cpt_code`, when truthy, is a string. */
  predicate CptEntryOk(e: Json)
  {
    e.Obj? && var c := Get(e.fields, "cpt_code", Null);
      Truthy(c) ==> c.Str?
  }

  /** The claim's CPT set, `{line.get("cpt_code", "").strip() ...}` over the
      lines with a truthy code; None when a line is not a dict or a truthy
      code is not a string. */
  function ClaimCpts(entries: seq<Json>): (r: Option<set<string>>)
    ensures r.Some? <==> forall i :: 0 <= i < |entries| ==> CptEntryOk(entries[i])
    ensures r.Some? ==> forall c :: c in r.value <==> exists i :: 0 <= i < |entries| && CptOf(entries[i]) == Some(c)
  {
    if entries == [] then Some({})
    else
      var rest := ClaimCpts(entries[1..]);
      assert forall i :: 1 <= i < |entries| ==> entries[i] == entries[1..][i - 1];
      if !entries[0].Obj? || rest.None? then None
      else
        var c := Get(entries[0].fields, "cpt_code", Null);
        if Truthy(c) && !c.Str? then None
        else
          var r := if Truthy(c) then rest.value + {Strip(c.s)} else rest.value;
          assert forall x :: x in r <==> exists i :: 0 <= i < |entries| && CptOf(entries[i]) == Some(x) by {
            forall x ensures x in r <==> exists i :: 0 <= i < |entries| && CptOf(entries[i]) == Some(x) {
              if x in rest.value {
                var i :| 0 <= i < |entries[1..]| && CptOf(entries[1..][i]) == Some(x);
                assert CptOf(entries[i + 1]) == Some(x);
              }
              if exists i :: 0 <= i < |entries| && CptOf(entries[i]) == Some(x) {
                var i :| 0 <= i < |entries| && CptOf(entries[i]) == Some(x);
                if i > 0 {
                  assert CptOf(entries[1..][i - 1]) == Some(x);
                }
              }
            }
          }
          Some(r)
  }

  // ---------------------------------------------------------------------
  // The decision
  // ---------------------------------------------------------------------

  /** What happens to a claim: an exception is raised (and swallowed by the
      file loop), it lacks a name or dates, no order matches, or an order wins. */
  datatype Decision = Raises | MissingNameOrDates | NoMatch | Match(winner: Candidate)

  /** The claim's decision against the order table and the line items. */
  function Select(doc: Json, orders: seq<Order>, items: seq<LineItem>, sortR: Scorer, setR: Scorer): (d: Decision)
    ensures !d.Raises? ==> doc.Obj? && ClaimKey(doc).Some? && ServiceEntries(doc.fields).Some?
  {
    match ClaimKey(doc)
    case None => Raises
    case Some(name) =>
      match ServiceEntries(doc.fields)
      case None => Raises
      case Some(entries) =>
        match ClaimDays(entries)
        case None => Raises
        case Some(days) =>
          if name == "" || days == [] then MissingNameOrDates
          else match Scan(name, days, orders, sortR, setR)
            case ScanRaises => Raises
            case Found(cs) =>
              if |cs| == 0 then NoMatch
              else if |cs| == 1 then Match(cs[0])
              else match ClaimCpts(entries)
                case None => Raises
                case Some(cpts) => Match(SortDesc(RankAll(cs, cpts, items))[0].cand)
  }

  /** A claim without a usable name or without dates goes to unmapped
      whatever the orders, the line items and the scorers are. */
  lemma FailFast(doc: Json, orders: seq<Order>, items: seq<LineItem>, sortR: Scorer, setR: Scorer)
    requires doc.Obj? && ClaimKey(doc).Some? && ServiceEntries(doc.fields).Some?
    requires ClaimDays(ServiceEntries(doc.fields).value).Some?
    requires ClaimKey(doc).value == "" || ClaimDays(ServiceEntries(doc.fields).value).value == []
    ensures Select(doc, orders, items, sortR, setR) == MissingNameOrDates
  {
  }

  /** The winner is one of the scan's candidates: an order of the table
      whose composite score reaches 90 and which has a date within 14 days
      of a claim date; with two or more candidates it is the earliest with
      the greatest `(CPT overlap, composite score)`. */
  lemma SelectWinner(doc: Json, orders: seq<Order>, items: seq<LineItem>, sortR: Scorer, setR: Scorer,
                     name: string, entries: seq<Json>, days: seq<Option<int>>)
    requires doc.Obj? && ClaimKey(doc) == Some(name) && ServiceEntries(doc.fields) == Some(entries)
    requires ClaimDays(entries) == Some(days)
    requires Select(doc, orders, items, sortR, setR).Match?
    ensures Scan(name, days, orders, sortR, setR).Found?
    ensures exists k :: (0 <= k < |orders| &&
      EvalOrder(name, days, orders[k], sortR, setR) == Keep(Select(doc, orders, items, sortR, setR).winner))
    ensures ScoreSum(Select(doc, orders, items, sortR, setR).winner) >= MinScoreSum
    ensures var cs := Scan(name, days, orders, sortR, setR).cands;
      |cs| > 1 ==> (ClaimCpts(entries).Some? &&
        Select(doc, orders, items, sortR, setR).winner == cs[FirstMaxIndex(RankAll(cs, ClaimCpts(entries).value, items))])
  {
    var cs := Scan(name, days, orders, sortR, setR).cands;
    var w := Select(doc, orders, items, sortR, setR).winner;
    ScanSound(name, days, orders, sortR, setR);
    var n: nat := 0;
    if |cs| > 1 {
      var rs := RankAll(cs, ClaimCpts(entries).value, items);
      SortHeadIsFirstMax(rs);
      n := FirstMaxIndex(rs);
    }
    assert w == cs[n];
    var k :| 0 <= k < |orders| && EvalOrder(name, days, orders[k], sortR, setR) == Keep(cs[n]);
    KeepExactly(name, days, orders[k], sortR, setR);
  }

  /** A lone candidate wins without its CPT codes being looked at: neither
      the line items nor the claim's CPT codes matter. */
  lemma SingleCandidateWins(doc: Json, orders: seq<Order>, items: seq<LineItem>, sortR: Scorer, setR: Scorer, c: Candidate)
    requires doc.Obj? && ClaimKey(doc).Some? && ClaimKey(doc).value != ""
    requires ServiceEntries(doc.fields).Some?
    requires ClaimDays(ServiceEntries(doc.fields).value).Some?
    requires ClaimDays(ServiceEntries(doc.fields).value).value != []
    requires Scan(ClaimKey(doc).value, ClaimDays(ServiceEntries(doc.fields).value).value, orders, sortR, setR) == Found([c])
    ensures Select(doc, orders, items, sortR, setR) == Match(c)
  {
  }

  /** A named, dated claim that no order survives the scan for is not matched. */
  lemma NoCandidateNoMatch(doc: Json, orders: seq<Order>, items: seq<LineItem>, sortR: Scorer, setR: Scorer)
    requires doc.Obj? && ClaimKey(doc).Some? && ClaimKey(doc).value != ""
    requires ServiceEntries(doc.fields).Some?
    requires ClaimDays(ServiceEntries(doc.fields).value).Some?
    requires ClaimDays(ServiceEntries(doc.fields).value).value != []
    requires Scan(ClaimKey(doc).value, ClaimDays(ServiceEntries(doc.fields).value).value, orders, sortR, setR) == Found([])
    ensures Select(doc, orders, items, sortR, setR) == NoMatch
  {
  }

  /** When every claim date parsed and no order fails on a NaN cell, the
      scan does not raise. */
  lemma {:induction false} ScanParsedNoRaise(name: string, claimDays: seq<Option<int>>, orders: seq<Order>, sortR: Scorer, setR: Scorer)
    requires AllParsed(claimDays)
    requires forall k :: 0 <= k < |orders| ==> orders[k].dos.DosList?
    ensures Scan(name, claimDays, orders, sortR, setR).Found?
  {
    ScanRaisesExactly(name, claimDays, orders, sortR, setR);
    forall k | 0 <= k < |orders| ensures EvalOrder(name, claimDays, orders[k], sortR, setR) != OrderRaises {
      PairScanParsedNoRaise(claimDays, orders[k].dos.days);
    }
  }

  /** A claim and a single order with the same name key and dates of
      service at most 14 days apart match, given that both scorers rate a
      string against itself 100. */
  lemma SameNameNearDateMatches(doc: Json, o: Order, items: seq<LineItem>, sortR: Scorer, setR: Scorer, day: int, orderDay: int)
    requires doc.Obj? && ClaimKey(doc).Some? && ClaimKey(doc).value != ""
    requires ServiceEntries(doc.fields).Some?
    requires ClaimDays(ServiceEntries(doc.fields).value) == Some([Some(day)])
    requires o.patientKey == ClaimKey(doc).value && o.dos == DosList([orderDay])
    requires sortR(o.patientKey, o.patientKey) == 100 && setR(o.patientKey, o.patientKey) == 100
    requires Close(day, orderDay)
    ensures Select(doc, [o], items, sortR, setR) == Match(Candidate(o, 100, 100))
  {
    var name := ClaimKey(doc).value;
    var c := Candidate(o, 100, 100);
    var claimDays, orderDays := [Some(day)], [orderDay];
    assert Close(claimDays[0].value, orderDays[0]);
    assert PairScan(claimDays, orderDays) == Pair;
    assert EvalOrder(name, claimDays, o, sortR, setR) == Keep(c);
    ScanSingle(name, [Some(day)], o, sortR, setR);
    SingleCandidateWins(doc, [o], items, sortR, setR, c);
  }

  /** The same claim and order with dates more than 14 days apart do not match. */
  lemma SameNameFarDateNoMatch(doc: Json, o: Order, items: seq<LineItem>, sortR: Scorer, setR: Scorer, day: int, orderDay: int)
    requires doc.Obj? && ClaimKey(doc).Some? && ClaimKey(doc).value != ""
    requires ServiceEntries(doc.fields).Some?
    requires ClaimDays(ServiceEntries(doc.fields).value) == Some([Some(day)])
    requires o.patientKey == ClaimKey(doc).value && o.dos == DosList([orderDay])
    requires !Close(day, orderDay)
    ensures Select(doc, [o], items, sortR, setR) == NoMatch
  {
    FarDateDropped(ClaimKey(doc).value, o, sortR, setR, day, orderDay);
    NoCandidateNoMatch(doc, [o], items, sortR, setR);
  }

  /** An order whose only date is far from the claim's only date leaves the scan empty. */
  lemma FarDateDropped(name: string, o: Order, sortR: Scorer, setR: Scorer, day: int, orderDay: int)
    requires o.dos == DosList([orderDay]) && !Close(day, orderDay)
    ensures Scan(name, [Some(day)], [o], sortR, setR) == Found([])
  {
    assert PairScan([Some(day)], [orderDay]) == PairScan([], [orderDay]);
    ScanSingle(name, [Some(day)], o, sortR, setR);
  }

  /** The per-claim logic as the source runs it, loops and all. */
  method SelectOrder(doc: Json, orders: seq<Order>, items: seq<LineItem>, sortR: Scorer, setR: Scorer) returns (d: Decision)
    ensures d == Select(doc, orders, items, sortR, setR)
  {
    var key := ClaimKey(doc);
    if key.None? {
      return Raises;
    }
    var entries := ServiceEntries(doc.fields);
    if entries.None? {
      return Raises;
    }
    var days := ClaimDays(entries.value);
    if days.None? {
      return Raises;
    }
    if key.value == "" || days.value == [] {
      return MissingNameOrDates;
    }
    var scan := CollectCandidates(key.value, days.value, orders, sortR, setR);
    if scan.ScanRaises? {
      return Raises;
    }
    var cands := scan.cands;
    if |cands| == 0 {
      return NoMatch;
    } else if |cands| == 1 {
      return Match(cands[0]);
    }
    var cpts := ClaimCpts(entries.value);
    if cpts.None? {
      return Raises;
    }
    var best := PickBest(cands, cpts.value, items);
    return Match(best);
  }

  // ---------------------------------------------------------------------
  // Writing the match into the claim
  // ---------------------------------------------------------------------

  /** The claim's fields after the winner's identifiers are written in. */
  function WithOrder(fields: map<string, Json>, o: Order): (r: map<string, Json>)
    ensures r.Keys == fields.Keys + {"Order_ID", "filemaker_number"}
    ensures r["Order_ID"] == Str(o.orderId) && r["filemaker_number"] == o.fmNumber
    ensures forall k :: k in fields && k != "Order_ID" && k != "filemaker_number" ==> r[k] == fields[k]
  {
    fields["Order_ID" := Str(o.orderId)]["filemaker_number" := o.fmNumber]
  }

  /** The claim document being enriched in place. */
  class ClaimDoc {
    var fields: map<string, Json>

    constructor (initial: map<string, Json>)
      ensures fields == initial
    {
      fields := initial;
    }

    /** `json_data["Order_ID"] = ...; json_data["filemaker_number"] = ...` */
    method RecordMatch(o: Order)
      modifies this
      ensures fields == WithOrder(old(fields), o)
    {
      fields := fields["Order_ID" := Str(o.orderId)];
      fields := fields["filemaker_number" := o.fmNumber];
    }
  }
}
