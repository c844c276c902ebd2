/**
  The file loop of `process_matches` (utils/map_to_fm.py): choose the
  claim files directly under the valid folder, decide each claim against
  the orders, and move it to the mapped folder (after uploading the
  enriched claim) or to the unmapped folder. Storage calls are recorded as
  actions instead of being performed; the store maps each key to its
  decoded JSON document, and a key missing from it is a download or
  decoding failure.
 */
module MatchBatch {
  import opened Base
  import opened Text
  import opened Json
  import opened ClaimMatch

  const ValidPrefix: string := "data/hcfa_json/valid/"
  const MappedPrefix: string := "data/hcfa_json/valid/mapped/"
  const UnmappedPrefix: string := "data/hcfa_json/valid/unmapped/"
  const StagingPrefix: string := "data/hcfa_json/valid/mapped/staging/"

  // ---------------------------------------------------------------------
  // Which keys are processed
  // ---------------------------------------------------------------------

  /** The listing filter: a `.json` name in any case, exactly three `/`,
      and none of the words `mapped`, `unmapped`, `staging`. */
  predicate IsClaimKey(k: string)
  {
    && EndsWith(Lower(k), ".json")
    && CountChar(k, '/') == 3
    && !Contains(k, "mapped")
    && !Contains(k, "unmapped")
    && !Contains(k, "staging")
  }

  /** The `unmapped` test adds nothing: a key containing `unmapped`
      already contains `mapped`. */
  lemma UnmappedContainsMapped(k: string)
    requires Contains(k, "unmapped")
    ensures Contains(k, "mapped")
  {
    var i :| 0 <= i <= |k| - 8 && OccursAt(k, "unmapped", i);
    assert k[i + 2..i + 8] == k[i..i + 8][2..];
    assert OccursAt(k, "mapped", i + 2);
  }

  /** Nothing the loop writes is picked up again by a later run. */
  lemma OutputsNeverListed(name: string)
    ensures !IsClaimKey(MappedPrefix + name)
    ensures !IsClaimKey(UnmappedPrefix + name)
    ensures !IsClaimKey(StagingPrefix + name)
  {
    var m, u, st := MappedPrefix + name, UnmappedPrefix + name, StagingPrefix + name;
    assert m[21..27] == "mapped";
    assert OccursAt(m, "mapped", 21);
    assert u[23..29] == "mapped";
    assert OccursAt(u, "mapped", 23);
    assert st[21..27] == "mapped";
    assert OccursAt(st, "mapped", 21);
  }

  /** The filter's slash count admits, under the valid folder, only files
      directly in it. */
  lemma ListedKeysAreDirectChildren(k: string)
    requires CountChar(k, '/') == 3 && StartsWith(k, ValidPrefix)
    ensures '/' !in k[|ValidPrefix|..]
  {
    var rest := k[|ValidPrefix|..];
    assert k == ValidPrefix + rest;
    PrefixSlashes();
    CountCharAppend(ValidPrefix, rest, '/');
  }

  lemma PrefixSlashes()
    ensures CountChar(ValidPrefix, '/') == 3
  {
    var a, b, c := "data", "hcfa_json", "valid";
    assert ValidPrefix == (a + "/") + (b + "/") + (c + "/");
    OneSlash(a);
    OneSlash(b);
    OneSlash(c);
    CountCharAppend((a + "/") + (b + "/"), c + "/", '/');
    CountCharAppend(a + "/", b + "/", '/');
  }

  lemma OneSlash(w: string)
    requires '/' !in w
    ensures CountChar(w + "/", '/') == 1
  {
    CountCharAppend(w, "/", '/');
  }

  /** `json_keys`: the listed keys that pass the filter, in listing order. */
  function ClaimKeys(keys: seq<string>): (r: seq<string>)
    ensures |r| <= |keys|
    ensures forall k :: k in r <==> k in keys && IsClaimKey(k)
  {
    if keys == [] then []
    else
      var init := keys[..|keys| - 1];
      var last := keys[|keys| - 1];
      assert keys == init + [last];
      ClaimKeys(init) + (if IsClaimKey(last) then [last] else [])
  }

  /** The filter keeps listing order: filtering a concatenation
      concatenates the filtered parts. */
  lemma {:induction false} ClaimKeysAppend(a: seq<string>, b: seq<string>)
    ensures ClaimKeys(a + b) == ClaimKeys(a) + ClaimKeys(b)
  {
    if b == [] {
      assert a + b == a;
    } else {
      var ab := a + b;
      var init, last := b[..|b| - 1], b[|b| - 1];
      assert ab[..|ab| - 1] == a + init;
      assert ab[|ab| - 1] == last;
      ClaimKeysAppend(a, init);
      ClaimKeysLast(ab);
      ClaimKeysLast(b);
    }
  }

  /** The recursion step of `ClaimKeys`, as a lemma over its own names. */
  lemma ClaimKeysLast(keys: seq<string>)
    requires keys != []
    ensures ClaimKeys(keys) ==
      ClaimKeys(keys[..|keys| - 1]) + (if IsClaimKey(keys[|keys| - 1]) then [keys[|keys| - 1]] else [])
  {
  }

  /** A single key is kept exactly when it passes the filter. */
  lemma ClaimKeysOne(k: string)
    ensures ClaimKeys([k]) == if IsClaimKey(k) then [k] else []
  {
    assert [k][..0] == [];
  }

  // ---------------------------------------------------------------------
  // One file
  // ---------------------------------------------------------------------

  /** A storage call: moving an object, or uploading a document. */
  datatype Action = Move(src: string, dst: string) | Upload(dst: string, doc: Json)

  /** The audit payload of a match. */
  datatype Audit = Audit(
    filename: string,
    nameOriginal: Json,
    nameNormalized: string,
    dbName: string,
    orderId: string,
    fmNumber: Json,
    tokenSort: int,
    tokenSet: int)

  /** The storage calls made for one file, whether it reaches the
      `processed_files += 1` line, and its audit record. */
  datatype FileStep = FileStep(actions: seq<Action>, processed: bool, audit: Option<Audit>)

  function AuditOf(filename: string, doc: Json, c: Candidate): Audit
    requires ClaimKey(doc).Some?
  {
    Audit(filename, ClaimName(doc).value, ClaimKey(doc).value, c.order.patientKey,
          c.order.orderId, c.order.fmNumber, c.tokenSort, c.tokenSet)
  }

  /** Every move takes `key` to the mapped or the unmapped folder, under its own file name. */
  predicate MovesOwnFile(actions: seq<Action>, key: string)
  {
    forall a :: a in actions && a.Move? ==>
      a.src == key && (a.dst == MappedPrefix + Basename(key) || a.dst == UnmappedPrefix + Basename(key))
  }

  /** One pass of the file loop, with the audit record returned. A claim
      without name or dates is moved to unmapped and skips the counter; a
      claim without a match is moved to unmapped and counted; a matched
      claim is uploaded enriched to mapped, the original is moved there,
      and it is counted; an exception leaves the file where it is. */
  function HandleFile(key: string, store: map<string, Json>, orders: seq<Order>, items: seq<LineItem>,
                      sortR: Scorer, setR: Scorer): (st: FileStep)
    ensures st.processed <==> (key in store &&
      (Select(store[key], orders, items, sortR, setR).NoMatch? || Select(store[key], orders, items, sortR, setR).Match?))
    ensures st.audit.Some? <==> key in store && Select(store[key], orders, items, sortR, setR).Match?
    ensures |st.actions| <= 2
    ensures key !in store ==> st == FileStep([], false, None)
  {
    if key !in store then FileStep([], false, None)
    else Act(key, store[key], Select(store[key], orders, items, sortR, setR))
  }

  /** What the loop does with the claim at `key` once the decision `d` is taken. */
  function Act(key: string, doc: Json, d: Decision): (st: FileStep)
    requires !d.Raises? ==> doc.Obj? && ClaimKey(doc).Some?
    ensures st.processed <==> d.NoMatch? || d.Match?
    ensures d.Raises? ==> st.actions == [] && st.audit == None
    ensures d.MissingNameOrDates? || d.NoMatch? ==>
      st.actions == [Move(key, UnmappedPrefix + Basename(key))] && st.audit == None
    ensures d.Match? ==>
      st.actions == [Upload(MappedPrefix + Basename(key), Obj(WithOrder(doc.fields, d.winner.order))),
                     Move(key, MappedPrefix + Basename(key))]
      && st.audit == Some(AuditOf(Basename(key), doc, d.winner))
  {
    var filename := Basename(key);
    if d.Raises? then FileStep([], false, None)
    else if d.Match? then
      var moved := Move(key, MappedPrefix + filename);
      var actions := [Upload(MappedPrefix + filename, Obj(WithOrder(doc.fields, d.winner.order))), moved];
      FileStep(actions, true, Some(AuditOf(filename, doc, d.winner)))
    else
      FileStep([Move(key, UnmappedPrefix + filename)], d.NoMatch?, None)
  }

  /** A file is only ever moved to the mapped or the unmapped folder,
      under its own name. */
  lemma HandleFileMoves(key: string, store: map<string, Json>, orders: seq<Order>, items: seq<LineItem>,
                        sortR: Scorer, setR: Scorer)
    ensures MovesOwnFile(HandleFile(key, store, orders, items, sortR, setR).actions, key)
  {
    var st := HandleFile(key, store, orders, items, sortR, setR);
    forall a | a in st.actions && a.Move?
      ensures a.src == key && (a.dst == MappedPrefix + Basename(key) || a.dst == UnmappedPrefix + Basename(key))
    {
    }
  }

  /** The file loop as written: appending to the undefined `results` list
      raises after a matched file has been uploaded and moved, so the
      exception handler skips the counter and no audit is kept. */
  function HandleFileAsWritten(key: string, store: map<string, Json>, orders: seq<Order>, items: seq<LineItem>,
                               sortR: Scorer, setR: Scorer): (st: FileStep)
    ensures st.processed <==> key in store && Select(store[key], orders, items, sortR, setR).NoMatch?
    ensures st.audit == None
  {
    var filename := Basename(key);
    if key !in store then FileStep([], false, None)
    else
      var doc := store[key];
      match Select(doc, orders, items, sortR, setR)
      case Raises => FileStep([], false, None)
      case MissingNameOrDates => FileStep([Move(key, UnmappedPrefix + filename)], false, None)
      case NoMatch => FileStep([Move(key, UnmappedPrefix + filename)], true, None)
      case Match(c) =>
        FileStep([Upload(MappedPrefix + filename, Obj(WithOrder(doc.fields, c.order))), Move(key, MappedPrefix + filename)],
                 false, None)
  }

  /** The two differ exactly on matched files: the same storage calls are
      made, but as written a matched file is neither counted nor audited. */
  lemma AuditCrashDropsMatches(key: string, store: map<string, Json>, orders: seq<Order>, items: seq<LineItem>,
                               sortR: Scorer, setR: Scorer)
    ensures HandleFileAsWritten(key, store, orders, items, sortR, setR).actions ==
            HandleFile(key, store, orders, items, sortR, setR).actions
    ensures HandleFileAsWritten(key, store, orders, items, sortR, setR).processed !=
            HandleFile(key, store, orders, items, sortR, setR).processed
        <==> key in store && Select(store[key], orders, items, sortR, setR).Match?
  {
  }

  // ---------------------------------------------------------------------
  // The batch
  // ---------------------------------------------------------------------

  /** All storage calls in order, the final `processed_files`, and the audit records. */
  datatype Report = Report(actions: seq<Action>, processed: nat, audits: seq<Audit>)

  function Then(r: Report, st: FileStep): Report
  {
    Report(r.actions + st.actions,
           r.processed + (if st.processed then 1 else 0),
           r.audits + (if st.audit.Some? then [st.audit.value] else []))
  }

  /** The loop over `keys`, one file after the other. Every file is counted
      at most once and audited only when counted; every move takes a key
      of the batch to an output folder, from which no later run lists it. */
  function Batch(keys: seq<string>, store: map<string, Json>, orders: seq<Order>, items: seq<LineItem>,
                 sortR: Scorer, setR: Scorer): (r: Report)
    ensures r.processed <= |keys|
    ensures |r.audits| <= r.processed
    ensures forall i :: 0 <= i < |r.actions| && r.actions[i].Move? ==>
      r.actions[i].src in keys && !IsClaimKey(r.actions[i].dst)
  {
    if keys == [] then Report([], 0, [])
    else
      var init := keys[..|keys| - 1];
      var key := keys[|keys| - 1];
      var prev := Batch(init, store, orders, items, sortR, setR);
      var st := HandleFile(key, store, orders, items, sortR, setR);
      var r := Then(prev, st);
      assert forall i :: 0 <= i < |r.actions| && r.actions[i].Move? ==>
        r.actions[i].src in keys && !IsClaimKey(r.actions[i].dst) by {
        forall i | 0 <= i < |r.actions| && r.actions[i].Move?
          ensures r.actions[i].src in keys && !IsClaimKey(r.actions[i].dst)
        {
          if i < |prev.actions| {
            assert r.actions[i] == prev.actions[i];
            assert r.actions[i].src in init;
          } else {
            assert r.actions[i] == st.actions[i - |prev.actions|];
            assert r.actions[i] in st.actions;
            HandleFileMoves(key, store, orders, items, sortR, setR);
            OutputsNeverListed(Basename(key));
          }
        }
      }
      r
  }

  /** The counter as written counts only the files that found no match. */
  function CountedAsWritten(keys: seq<string>, store: map<string, Json>, orders: seq<Order>, items: seq<LineItem>,
                            sortR: Scorer, setR: Scorer): (n: nat)
    ensures n <= Batch(keys, store, orders, items, sortR, setR).processed
  {
    if keys == [] then 0
    else
      var init := keys[..|keys| - 1];
      var key := keys[|keys| - 1];
      CountedAsWritten(init, store, orders, items, sortR, setR) +
        (if HandleFileAsWritten(key, store, orders, items, sortR, setR).processed then 1 else 0)
  }

  /** The counter as written falls short of the corrected one by exactly the
      number of matched files. */
  lemma {:induction false} CountShortfall(keys: seq<string>, store: map<string, Json>, orders: seq<Order>, items: seq<LineItem>,
                                          sortR: Scorer, setR: Scorer)
    ensures Batch(keys, store, orders, items, sortR, setR).processed ==
      CountedAsWritten(keys, store, orders, items, sortR, setR) + |Batch(keys, store, orders, items, sortR, setR).audits|
  {
    if keys != [] {
      var init := keys[..|keys| - 1];
      CountShortfall(init, store, orders, items, sortR, setR);
      AuditCrashDropsMatches(keys[|keys| - 1], store, orders, items, sortR, setR);
    }
  }

  /** One pass of the loop body, enriching a matched claim in place before
      it is uploaded. */
  method HandleOne(key: string, store: map<string, Json>, orders: seq<Order>, items: seq<LineItem>,
                   sortR: Scorer, setR: Scorer) returns (st: FileStep)
    ensures st == HandleFile(key, store, orders, items, sortR, setR)
  {
    if key !in store {
      return FileStep([], false, None);
    }
    var doc := store[key];
    var d := SelectOrder(doc, orders, items, sortR, setR);
    st := ActOn(key, doc, d);
  }

  /** `Act` with the matched claim enriched in place. */
  method ActOn(key: string, doc: Json, d: Decision) returns (st: FileStep)
    requires !d.Raises? ==> doc.Obj? && ClaimKey(doc).Some?
    ensures st == Act(key, doc, d)
  {
    var filename := Basename(key);
    if d.Raises? {
      st := FileStep([], false, None);
    } else if d.Match? {
      var claim := new ClaimDoc(doc.fields);
      claim.RecordMatch(d.winner.order);
      st := FileStep([Upload(MappedPrefix + filename, Obj(claim.fields)), Move(key, MappedPrefix + filename)],
                     true, Some(AuditOf(filename, doc, d.winner)));
    } else {
      st := FileStep([Move(key, UnmappedPrefix + filename)], d.NoMatch?, None);
    }
  }

  lemma BatchStep(keys: seq<string>, n: nat, store: map<string, Json>, orders: seq<Order>, items: seq<LineItem>,
                  sortR: Scorer, setR: Scorer)
    requires n < |keys|
    ensures Batch(keys[..n + 1], store, orders, items, sortR, setR) ==
      Then(Batch(keys[..n], store, orders, items, sortR, setR), HandleFile(keys[n], store, orders, items, sortR, setR))
  {
    assert keys[..n + 1][..n] == keys[..n];
  }

  /** The whole loop: filter the listing, then handle each file. */
  method ProcessMatches(allKeys: seq<string>, store: map<string, Json>, orders: seq<Order>, items: seq<LineItem>,
                        sortR: Scorer, setR: Scorer) returns (report: Report)
    ensures report == Batch(ClaimKeys(allKeys), store, orders, items, sortR, setR)
  {
    var jsonKeys := ClaimKeys(allKeys);
    report := Report([], 0, []);
    for n := 0 to |jsonKeys|
      invariant report == Batch(jsonKeys[..n], store, orders, items, sortR, setR)
    {
      BatchStep(jsonKeys, n, store, orders, items, sortR, setR);
      var st := HandleOne(jsonKeys[n], store, orders, items, sortR, setR);
      report := Report(report.actions + st.actions,
                       if st.processed then report.processed + 1 else report.processed,
                       if st.audit.Some? then report.audits + [st.audit.value] else report.audits);
    }
    assert jsonKeys[..|jsonKeys|] == jsonKeys;
  }
}
