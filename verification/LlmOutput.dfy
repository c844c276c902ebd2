/**
  Post-processing of the language model's answer in `process_llm_s3`
  (utils/llm_hcfa.py): strip an optional json code fence, refuse anything
  that does not start with `{`, rewrite the charge fields of the decoded
  claim in place, and derive the keys the result and the archived input
  are stored under. The model call, JSON decoding and the numeric
  rescaling of a charge are parameters.
 */
module LlmOutput {
  import opened Base
  import opened Text
  import opened Json

  const InputPrefix: string := "data/hcfa_txt/"
  const OutputPrefix: string := "data/extracts/"
  const ArchivePrefix: string := "data/hcfa_txt/archived/"
  const LogKey: string := "logs/extract_errors.log"

  const FenceOpen: string := "```json"
  const FenceClose: string := "```"

  // ---------------------------------------------------------------------
  // Cleaning the answer
  // ---------------------------------------------------------------------

  predicate Fenced(t: string)
  {
    StartsWith(t, FenceOpen) && EndsWith(t, FenceClose)
  }

  /** The opening and the closing fence never overlap. */
  lemma FencedLength(t: string)
    requires Fenced(t)
    ensures |t| >= |FenceOpen| + |FenceClose|
  {
    assert t[..7] == FenceOpen;
    assert t[4] == 's' && t[5] == 'o' && t[6] == 'n';
    assert t[|t| - 3..] == FenceClose;
    assert t[|t| - 3] == '`' && t[|t| - 2] == '`' && t[|t| - 1] == '`';
  }

  /** `clean_gpt_output`: strip, drop one enclosing json fence if both ends
      are present, strip again. */
  function CleanGptOutput(raw: string): (r: string)
    ensures NoEdgeSpace(r)
    ensures !Fenced(Strip(raw)) ==> r == Strip(raw)
  {
    var t := Strip(raw);
    if Fenced(t) then
      FencedLength(t);
      Strip(t[|FenceOpen|..|t| - |FenceClose|])
    else t
  }

  /** A fenced text begins and ends with a backquote, which is not whitespace. */
  lemma FencedNoEdge(body: string)
    ensures NoEdgeSpace(FenceOpen + body + FenceClose)
  {
    var t := FenceOpen + body + FenceClose;
    assert t[0] == '`' && t[|t| - 1] == '`';
  }

  /** A fenced answer gives back its stripped contents. */
  lemma FenceRoundTrip(body: string)
    ensures CleanGptOutput(FenceOpen + body + FenceClose) == Strip(body)
  {
    var t := FenceOpen + body + FenceClose;
    FencedNoEdge(body);
    StripNoEdge(t);
    assert t[..|FenceOpen|] == FenceOpen;
    assert t[|t| - |FenceClose|..] == FenceClose;
    assert t[|FenceOpen|..|t| - |FenceClose|] == body;
  }

  /** Only one fence is removed per call: a doubly fenced answer keeps its
      inner fence. */
  lemma OneFencePerCall(body: string)
    ensures CleanGptOutput(FenceOpen + (FenceOpen + body + FenceClose) + FenceClose) == FenceOpen + body + FenceClose
  {
    FenceRoundTrip(FenceOpen + body + FenceClose);
    FencedNoEdge(body);
    StripNoEdge(FenceOpen + body + FenceClose);
  }

  /** An answer without a leading fence is only stripped. */
  lemma UnfencedOnlyStripped(raw: string)
    requires !StartsWith(Strip(raw), FenceOpen)
    ensures CleanGptOutput(raw) == Strip(raw)
  {
  }

  /** The answer is kept only when the cleaned text starts with `{`. */
  predicate Accepted(cleaned: string)
  {
    StartsWith(cleaned, "{")
  }

  // ---------------------------------------------------------------------
  // Charges
  // ---------------------------------------------------------------------

  /** The numeric part of `clean_charge`: the amount text (with `$` and `,`
      removed) to its rewritten form, or None when `float()` rejects it. */
  type Rescale = string -> Option<string>

  /** The text `float()` is given: the charge without `$` and `,`. */
  function AmountText(s: string): (t: string)
    ensures '$' !in t && ',' !in t
    ensures forall c :: c in t ==> c in s
  {
    ReplaceCharByNothing(s, '$');
    ReplaceCharByNothing(ReplaceAll(s, "$", ""), ',');
    ReplaceAll(ReplaceAll(s, "$", ""), ",", "")
  }

  /** `clean_charge(v)`: only a string starting with `$` can change; any
      other value, and any amount `float()` rejects, is returned as is. */
  function CleanCharge(v: Json, rescale: Rescale): (r: Json)
    ensures !v.Str? ==> r == v
    ensures v.Str? && !StartsWith(v.s, "$") ==> r == v
    ensures v.Str? && StartsWith(v.s, "$") ==>
      r == (match rescale(AmountText(v.s)) case None => v case Some(t) => Str(t))
  {
    if !v.Str? || !StartsWith(v.s, "$") then v
    else match rescale(AmountText(v.s))
      case None => v
      case Some(t) => Str(t)
  }

  /** Python's `key in container`; None when the container type does not
      support `in` (numbers, booleans, None). */
  function PyIn(key: string, container: Json): Option<bool>
  {
    match container
    case Obj(m) => Some(key in m)
    case Str(s) => Some(Contains(s, key))
    case Arr(items) => Some(Str(key) in items)
    case _ => None
  }

  /** One service line: a dict with `charge_amount` gets it rewritten; a
      line without it is untouched; a non-dict that "contains" the key
      cannot be indexed by it and raises. */
  function FixLine(line: Json, rescale: Rescale): (r: Option<Json>)
    ensures r.Some? && line.Obj? ==> r.value.Obj? && r.value.fields.Keys == line.fields.Keys
    ensures r.Some? && !line.Obj? ==> r.value == line
  {
    match PyIn("charge_amount", line)
    case None => None
    case Some(has) =>
      if !has then Some(line)
      else if line.Obj? then
        Some(Obj(line.fields["charge_amount" := CleanCharge(line.fields["charge_amount"], rescale)]))
      else None
  }

  /** The line loop over a list of lines. */
  function FixLines(lines: seq<Json>, rescale: Rescale): (r: Option<seq<Json>>)
    ensures r.Some? ==> |r.value| == |lines|
    ensures r.Some? ==> forall i :: 0 <= i < |lines| ==> FixLine(lines[i], rescale) == Some(r.value[i])
    ensures r.None? ==> exists i :: 0 <= i < |lines| && FixLine(lines[i], rescale).None?
  {
    if lines == [] then Some([])
    else
      var rest := FixLines(lines[..|lines| - 1], rescale);
      var last := FixLine(lines[|lines| - 1], rescale);
      if rest.None? then
        var i :| 0 <= i < |lines| - 1 && FixLine(lines[..|lines| - 1][i], rescale).None?;
        assert lines[i] == lines[..|lines| - 1][i];
        None
      else if last.None? then None
      else Some(rest.value + [last.value])
  }

  /** The line loop over whatever `service_lines` holds: a list has its
      lines fixed; iterating a dict yields its keys, and a key containing
      `charge_amount` cannot be indexed by it; a string yields characters,
      which never contain it; anything else is not iterable. */
  function FixServiceLines(v: Json, rescale: Rescale): (r: Option<Json>)
    ensures v.Arr? && r.Some? ==> r.value.Arr? && |r.value.items| == |v.items|
    ensures !v.Arr? && r.Some? ==> r.value == v
  {
    match v
    case Arr(lines) =>
      (match FixLines(lines, rescale) case None => None case Some(fixed) => Some(Arr(fixed)))
    case Obj(m) => if exists k | k in m :: Contains(k, "charge_amount") then None else Some(v)
    case Str(_) => Some(v)
    case _ => None
  }

  /** `fix_all_charges` on the decoded claim, or None when it raises. */
  function FixCharges(fields: map<string, Json>, rescale: Rescale): (r: Option<map<string, Json>>)
  {
    var afterLines :=
      if "service_lines" !in fields then Some(fields)
      else match FixServiceLines(fields["service_lines"], rescale)
        case None => None
        case Some(v) => Some(fields["service_lines" := v]);
    match afterLines
    case None => None
    case Some(f) =>
      if "billing_info" !in f then Some(f)
      else match PyIn("total_charge", f["billing_info"])
        case None => None
        case Some(has) =>
          if !has then Some(f)
          else if f["billing_info"].Obj? then
            var bi := f["billing_info"].fields;
            Some(f["billing_info" := Obj(bi["total_charge" := CleanCharge(bi["total_charge"], rescale)])])
          else None
  }

  /** The claim keeps its keys, and every key but `service_lines` and
      `billing_info` keeps its value. */
  lemma FixChargesKeepsOthers(fields: map<string, Json>, rescale: Rescale)
    requires FixCharges(fields, rescale).Some?
    ensures FixCharges(fields, rescale).value.Keys == fields.Keys
    ensures forall k :: k in fields && k != "service_lines" && k != "billing_info" ==>
      FixCharges(fields, rescale).value[k] == fields[k]
  {
  }

  /** A list of service lines keeps its length and order: line `i` of the
      result is line `i` of the input, with only `charge_amount` rewritten
      when present. */
  lemma FixChargesLines(fields: map<string, Json>, rescale: Rescale, i: nat)
    requires FixCharges(fields, rescale).Some?
    requires "service_lines" in fields && fields["service_lines"].Arr?
    requires i < |fields["service_lines"].items|
    ensures var out := FixCharges(fields, rescale).value["service_lines"];
      var line := fields["service_lines"].items[i];
      && out.Arr? && |out.items| == |fields["service_lines"].items|
      && (line.Obj? && "charge_amount" in line.fields ==>
            out.items[i] == Obj(line.fields["charge_amount" := CleanCharge(line.fields["charge_amount"], rescale)]))
      && (!(line.Obj? && "charge_amount" in line.fields) ==> out.items[i] == line)
  {
    var lines := fields["service_lines"].items;
    var fixed := FixLines(lines, rescale).value;
    assert FixLine(lines[i], rescale) == Some(fixed[i]);
  }

  /** `total_charge` is rewritten exactly when `billing_info` is present and
      is a dict holding it; otherwise `billing_info` is left as it was. */
  lemma FixChargesTotal(fields: map<string, Json>, rescale: Rescale)
    requires FixCharges(fields, rescale).Some?
    requires "billing_info" in fields
    ensures var out := FixCharges(fields, rescale).value["billing_info"];
      var bi := fields["billing_info"];
      && (bi.Obj? && "total_charge" in bi.fields ==>
            out == Obj(bi.fields["total_charge" := CleanCharge(bi.fields["total_charge"], rescale)]))
      && (!(bi.Obj? && "total_charge" in bi.fields) ==> out == bi)
  {
  }

  /** A claim whose charges are not `$` strings comes back unchanged. */
  lemma {:induction false} FixLinesIdentity(lines: seq<Json>, rescale: Rescale)
    requires forall i :: 0 <= i < |lines| ==>
      (lines[i].Obj? && ("charge_amount" in lines[i].fields ==> !lines[i].fields["charge_amount"].Str?))
    ensures FixLines(lines, rescale) == Some(lines)
  {
    if lines != [] {
      var init := lines[..|lines| - 1];
      FixLinesIdentity(init, rescale);
      var last := lines[|lines| - 1];
      if "charge_amount" in last.fields {
        assert last.fields["charge_amount" := last.fields["charge_amount"]] == last.fields;
      }
      assert init + [last] == lines;
    }
  }

  /** The loop body for one line: rewrite its `charge_amount` if it has one. */
  method FixLineInPlace(line: Json, rescale: Rescale) returns (r: Option<Json>)
    ensures r == FixLine(line, rescale)
  {
    var has := PyIn("charge_amount", line);
    if has.None? || (has.value && !line.Obj?) {
      return None;
    }
    r := Some(line);
    if has.value {
      r := Some(Obj(line.fields["charge_amount" := CleanCharge(line.fields["charge_amount"], rescale)]));
    }
  }

  /** The `for line in data['service_lines']` loop on a list of lines;
      None when a line makes it raise. */
  method FixLinesInPlace(lines: seq<Json>, rescale: Rescale) returns (r: Option<seq<Json>>)
    ensures r == FixLines(lines, rescale)
  {
    var out := lines;
    var i := 0;
    while i < |lines|
      invariant 0 <= i <= |lines|
      invariant |out| == |lines|
      invariant FixLines(lines[..i], rescale) == Some(out[..i])
      invariant forall j :: i <= j < |lines| ==> out[j] == lines[j]
    {
      var fixed := FixLineInPlace(out[i], rescale);
      FixLinesStep(lines, i, rescale);
      if fixed.None? {
        FixLinesPrefix(lines, i + 1, rescale);
        return None;
      }
      out := out[i := fixed.value];
      assert out[..i + 1] == out[..i] + [out[i]];
      i := i + 1;
    }
    assert lines[..i] == lines && out[..i] == out;
    return Some(out);
  }

  /** The decoded claim, rewritten in place. */
  class ExtractDoc {
    var fields: map<string, Json>

    constructor (initial: map<string, Json>)
      ensures fields == initial
    {
      fields := initial;
    }

    /** `fix_all_charges(data)`; `ok` is false when it raises. */
    method FixAllCharges(rescale: Rescale) returns (ok: bool)
      modifies this
      ensures ok <==> FixCharges(old(fields), rescale).Some?
      ensures ok ==> fields == FixCharges(old(fields), rescale).value
    {
      if "service_lines" in fields {
        var v := fields["service_lines"];
        if v.Arr? {
          var fixed := FixLinesInPlace(v.items, rescale);
          if fixed.None? {
            return false;
          }
          fields := fields["service_lines" := Arr(fixed.value)];
        } else if v.Obj? {
          if exists k | k in v.fields :: Contains(k, "charge_amount") {
            return false;
          }
        } else if !v.Str? {
          return false;
        }
      }
      if "billing_info" in fields {
        var has := PyIn("total_charge", fields["billing_info"]);
        if has.None? || (has.value && !fields["billing_info"].Obj?) {
          return false;
        }
        if has.value {
          var bi := fields["billing_info"].fields;
          fields := fields["billing_info" := Obj(bi["total_charge" := CleanCharge(bi["total_charge"], rescale)])];
        }
      }
      return true;
    }
  }

  /** The line loop after one more line. */
  lemma FixLinesStep(lines: seq<Json>, i: nat, rescale: Rescale)
    requires i < |lines|
    ensures FixLines(lines[..i + 1], rescale) ==
      if FixLines(lines[..i], rescale).None? || FixLine(lines[i], rescale).None? then None
      else Some(FixLines(lines[..i], rescale).value + [FixLine(lines[i], rescale).value])
  {
    assert lines[..i + 1][..i] == lines[..i];
  }

  /** A line loop that raises on a prefix raises on the whole list. */
  lemma FixLinesPrefix(lines: seq<Json>, n: nat, rescale: Rescale)
    requires n <= |lines| && FixLines(lines[..n], rescale).None?
    ensures FixLines(lines, rescale).None?
  {
    var i :| 0 <= i < n && FixLine(lines[..n][i], rescale).None?;
    assert lines[..n][i] == lines[i];
  }

  // ---------------------------------------------------------------------
  // Keys
  // ---------------------------------------------------------------------

  /** The key of the extracted JSON: the input's file name without its
      extension, under the output folder, with `.json` appended. */
  function OutputKey(key: string): (k: string)
    ensures StartsWith(k, OutputPrefix) && EndsWith(k, ".json")
    ensures '/' !in k[|OutputPrefix|..]
  {
    var stem := StripExtension(Basename(key));
    NoSlashInStem(Basename(key), stem);
    Framed(OutputPrefix, stem, ".json");
    OutputPrefix + stem + ".json"
  }

  lemma NoSlashInStem(name: string, stem: string)
    requires '/' !in name && StartsWith(name, stem)
    ensures '/' !in stem
  {
    forall i | 0 <= i < |stem| ensures stem[i] != '/' {
      assert stem[i] == name[..|stem|][i] == name[i];
    }
  }

  /** `p + mid + q` starts with `p`, ends with `q`, and has `mid + q` after `p`. */
  lemma Framed(p: string, mid: string, q: string)
    ensures StartsWith(p + mid + q, p) && EndsWith(p + mid + q, q)
    ensures (p + mid + q)[|p|..] == mid + q
  {
    var k := p + mid + q;
    assert k[..|p|] == p;
    assert k[|k| - |q|..] == q;
    assert k[|p|..] == mid + q;
  }

  /** A file `name.ext` in any folder yields `name.json` under the output
      folder: the folder and the extension are dropped. */
  lemma OutputKeyOf(dir: string, name: string, ext: string)
    requires EndsWith(dir, "/")
    requires name != [] && '/' !in name && '.' !in name
    requires '/' !in ext && '.' !in ext
    ensures OutputKey(dir + name + "." + ext) == OutputPrefix + name + ".json"
  {
    var file := name + "." + ext;
    assert '/' !in file by {
      forall i | 0 <= i < |file| ensures file[i] != '/' {
        if i < |name| { assert file[i] == name[i]; }
        else if i > |name| { assert file[i] == ext[i - |name| - 1]; }
      }
    }
    assert dir + name + "." + ext == dir + file;
    BasenameOf(dir, file);
    assert name[0] != '.';
    StripExtensionOf(name, ext);
  }

  /** The archive key of an input key (`key.replace(INPUT_PREFIX, ARCHIVE_PREFIX)`). */
  function Archived(key: string): string
  {
    ArchiveKey(key, InputPrefix, ArchivePrefix)
  }

  // ---------------------------------------------------------------------
  // Choosing the input files
  // ---------------------------------------------------------------------

  /** `xs[:n]` for any integer `n`: a negative `n` drops `-n` items from the end. */
  function PyTake<T>(xs: seq<T>, n: int): (r: seq<T>)
    ensures n >= 0 ==> |r| == if n < |xs| then n else |xs|
    ensures n < 0 ==> |r| == if |xs| + n > 0 then |xs| + n else 0
    ensures r == xs[..|r|]
  {
    if n >= 0 then (if n < |xs| then xs[..n] else xs)
    else if |xs| + n > 0 then xs[..|xs| + n] else []
  }

  /** `txt_keys`: the `.txt` keys (in any case) in listing order, cut to
      `limit` when a non-zero limit is given. */
  function SelectTextKeys(keys: seq<string>, limit: Option<int>): (r: seq<string>)
    ensures forall k :: k in r ==> k in keys && EndsWith(Lower(k), ".txt")
    ensures |r| <= |KeysEndingWith(keys, ".txt")| && r == KeysEndingWith(keys, ".txt")[..|r|]
    ensures limit.None? || limit == Some(0) ==> r == KeysEndingWith(keys, ".txt")
    ensures limit.Some? && limit.value > 0 ==> |r| == if limit.value < |KeysEndingWith(keys, ".txt")| then limit.value else |KeysEndingWith(keys, ".txt")|
  {
    var all := KeysEndingWith(keys, ".txt");
    if limit.None? || limit.value == 0 then all else PyTake(all, limit.value)
  }

  // ---------------------------------------------------------------------
  // One input file
  // ---------------------------------------------------------------------

  /** What happens to one text file: the extract is uploaded and the text
      archived, or the error is logged. */
  datatype Outcome = Extracted(jsonKey: string, doc: map<string, Json>, archivedKey: string) | ExtractionError

  /** One pass of the file loop after the model has answered `raw`;
      `decode` is `json.loads` on text that starts with `{`. */
  function ExtractFile(key: string, raw: string, decode: string -> Option<map<string, Json>>, rescale: Rescale): (r: Outcome)
    ensures !Accepted(CleanGptOutput(raw)) ==> r == ExtractionError
    ensures var c := CleanGptOutput(raw);
      r.Extracted? <==> Accepted(c) && decode(c).Some? && FixCharges(decode(c).value, rescale).Some?
    ensures var c := CleanGptOutput(raw);
      r.Extracted? ==> r == Extracted(OutputKey(key), FixCharges(decode(c).value, rescale).value, Archived(key))
  {
    var cleaned := CleanGptOutput(raw);
    if !Accepted(cleaned) then ExtractionError
    else match decode(cleaned)
      case None => ExtractionError
      case Some(parsed) =>
        match FixCharges(parsed, rescale)
        case None => ExtractionError
        case Some(fixed) => Extracted(OutputKey(key), fixed, Archived(key))
  }

  /** A fenced object is accepted and decoded from the text inside the fence. */
  lemma FencedObjectAccepted(body: string)
    requires StartsWith(Strip(body), "{")
    ensures Accepted(CleanGptOutput(FenceOpen + body + FenceClose))
    ensures CleanGptOutput(FenceOpen + body + FenceClose) == Strip(body)
  {
    FenceRoundTrip(body);
  }

  // ---------------------------------------------------------------------
  // The run
  // ---------------------------------------------------------------------

  /** The model's answer for each input key (the model call itself is not
      part of this model). */
  type Answers = string -> string

  /** `json.loads` on the cleaned answer: the decoded object, or None. */
  type Decoder = string -> Option<map<string, Json>>

  /** What a run leaves behind, in loop order: the extracts uploaded (key
      and claim), the text files moved to the archive (from, to), and the
      error log, one line per failed file. */
  datatype RunReport = RunReport(uploads: seq<(string, map<string, Json>)>, moves: seq<(string, string)>, log: seq<string>)

  /** What the loop records, given the outcome of each file in order. */
  function Collect(keys: seq<string>, os: seq<Outcome>): (r: RunReport)
    requires |os| == |keys|
    ensures |r.uploads| == |r.moves| && |r.uploads| + |r.log| == |keys|
  {
    if keys == [] then RunReport([], [], [])
    else
      var n := |keys| - 1;
      var prev := Collect(keys[..n], os[..n]);
      match os[n]
      case ExtractionError => prev.(log := prev.log + [keys[n]])
      case Extracted(jsonKey, doc, archivedKey) =>
        prev.(uploads := prev.uploads + [(jsonKey, doc)], moves := prev.moves + [(keys[n], archivedKey)])
  }

  /** The outcome of each selected file. */
  function Outcomes(keys: seq<string>, answer: Answers, decode: Decoder, rescale: Rescale): (os: seq<Outcome>)
    ensures |os| == |keys|
    ensures forall i :: 0 <= i < |keys| ==> os[i] == ExtractFile(keys[i], answer(keys[i]), decode, rescale)
  {
    seq(|keys|, i requires 0 <= i < |keys| => ExtractFile(keys[i], answer(keys[i]), decode, rescale))
  }

  /** The file loop of `process_llm_s3` over the selected keys. */
  function Run(keys: seq<string>, answer: Answers, decode: Decoder, rescale: Rescale): (r: RunReport)
    ensures |r.uploads| == |r.moves| && |r.uploads| + |r.log| == |keys|
  {
    Collect(keys, Outcomes(keys, answer, decode, rescale))
  }

  predicate Fails(key: string, answer: Answers, decode: Decoder, rescale: Rescale)
  {
    ExtractFile(key, answer(key), decode, rescale).ExtractionError?
  }

  /** The log lists the keys of the failed outcomes. */
  lemma {:induction false} CollectLog(keys: seq<string>, os: seq<Outcome>, k: string)
    requires |os| == |keys|
    ensures k in Collect(keys, os).log <==> exists i :: 0 <= i < |keys| && keys[i] == k && os[i].ExtractionError?
  {
    if keys != [] {
      var n := |keys| - 1;
      CollectLog(keys[..n], os[..n], k);
      if exists i :: 0 <= i < |keys| && keys[i] == k && os[i].ExtractionError? {
        var i :| 0 <= i < |keys| && keys[i] == k && os[i].ExtractionError?;
        if i < n {
          assert keys[..n][i] == k && os[..n][i].ExtractionError?;
        }
      }
      if exists i :: 0 <= i < n && keys[..n][i] == k && os[..n][i].ExtractionError? {
        var i :| 0 <= i < n && keys[..n][i] == k && os[..n][i].ExtractionError?;
        assert keys[i] == k && os[i].ExtractionError?;
      }
    }
  }

  /** Move `i` and upload `i` come from one extracted file. */
  lemma {:induction false} CollectMoves(keys: seq<string>, os: seq<Outcome>, i: nat)
    requires |os| == |keys| && i < |Collect(keys, os).moves|
    ensures exists j :: (0 <= j < |keys| && os[j].Extracted?
      && Collect(keys, os).moves[i] == (keys[j], os[j].archivedKey)
      && Collect(keys, os).uploads[i] == (os[j].jsonKey, os[j].doc))
  {
    var n := |keys| - 1;
    var prev := Collect(keys[..n], os[..n]);
    if i < |prev.moves| {
      CollectMoves(keys[..n], os[..n], i);
      var j :| 0 <= j < n && os[..n][j].Extracted?
        && prev.moves[i] == (keys[..n][j], os[..n][j].archivedKey)
        && prev.uploads[i] == (os[..n][j].jsonKey, os[..n][j].doc);
      assert keys[..n][j] == keys[j] && os[..n][j] == os[j];
    } else {
      assert os[n].Extracted?;
    }
  }

  /** The error log names exactly the files whose extraction failed. */
  lemma RunLogExactly(keys: seq<string>, answer: Answers, decode: Decoder, rescale: Rescale, k: string)
    ensures k in Run(keys, answer, decode, rescale).log <==> k in keys && Fails(k, answer, decode, rescale)
  {
    var os := Outcomes(keys, answer, decode, rescale);
    CollectLog(keys, os, k);
    if k in keys && Fails(k, answer, decode, rescale) {
      var i :| 0 <= i < |keys| && keys[i] == k;
      assert os[i].ExtractionError?;
    }
  }

  /** Every archived file came from the run's keys, did not fail, went to
      its archive key, and had its extract uploaded under its output key. */
  lemma RunMovesArchive(keys: seq<string>, answer: Answers, decode: Decoder, rescale: Rescale, i: nat)
    requires i < |Run(keys, answer, decode, rescale).moves|
    ensures var r := Run(keys, answer, decode, rescale);
      && r.moves[i].0 in keys && !Fails(r.moves[i].0, answer, decode, rescale)
      && r.moves[i].1 == Archived(r.moves[i].0)
      && r.uploads[i].0 == OutputKey(r.moves[i].0)
  {
    var os := Outcomes(keys, answer, decode, rescale);
    CollectMoves(keys, os, i);
    var j :| 0 <= j < |keys| && os[j].Extracted?
      && Collect(keys, os).moves[i] == (keys[j], os[j].archivedKey)
      && Collect(keys, os).uploads[i] == (os[j].jsonKey, os[j].doc);
    assert os[j] == ExtractFile(keys[j], answer(keys[j]), decode, rescale);
  }

  /** The body of the `try` for one key: clean, check, decode, fix the
      charges in place, and name the extract and the archived text. */
  method ExtractOne(key: string, raw: string, decode: Decoder, rescale: Rescale) returns (o: Outcome)
    ensures o == ExtractFile(key, raw, decode, rescale)
  {
    var cleaned := CleanGptOutput(raw);
    if !Accepted(cleaned) {
      return ExtractionError;
    }
    var parsed := decode(cleaned);
    if parsed.None? {
      return ExtractionError;
    }
    var doc := new ExtractDoc(parsed.value);
    var ok := doc.FixAllCharges(rescale);
    if !ok {
      return ExtractionError;
    }
    return Extracted(OutputKey(key), doc.fields, Archived(key));
  }

  lemma CollectStep(keys: seq<string>, os: seq<Outcome>, i: nat)
    requires |os| == |keys| && i < |keys|
    ensures var prev := Collect(keys[..i], os[..i]);
      Collect(keys[..i + 1], os[..i + 1]) ==
        match os[i]
        case ExtractionError => prev.(log := prev.log + [keys[i]])
        case Extracted(jsonKey, doc, archivedKey) =>
          prev.(uploads := prev.uploads + [(jsonKey, doc)], moves := prev.moves + [(keys[i], archivedKey)])
  {
    assert keys[..i + 1][..i] == keys[..i];
    assert os[..i + 1][..i] == os[..i];
  }

  /** The loop itself. */
  method ExtractAll(keys: seq<string>, answer: Answers, decode: Decoder, rescale: Rescale) returns (r: RunReport)
    ensures r == Run(keys, answer, decode, rescale)
  {
    ghost var os := Outcomes(keys, answer, decode, rescale);
    r := RunReport([], [], []);
    for i := 0 to |keys|
      invariant r == Collect(keys[..i], os[..i])
    {
      CollectStep(keys, os, i);
      var o := ExtractOne(keys[i], answer(keys[i]), decode, rescale);
      assert o == os[i];
      match o {
        case ExtractionError =>
          r := r.(log := r.log + [keys[i]]);
        case Extracted(jsonKey, doc, archivedKey) =>
          r := r.(uploads := r.uploads + [(jsonKey, doc)], moves := r.moves + [(keys[i], archivedKey)]);
      }
    }
    assert keys[..|keys|] == keys && os[..|keys|] == os;
  }

  /** The log object as the source leaves it: every error uploads a fresh
      one-line file over the same key, so only the last error survives. */
  function StoredLogAsWritten(log: seq<string>): (stored: Option<seq<string>>)
    ensures log == [] <==> stored.None?
    ensures stored.Some? ==> stored.value == [log[|log| - 1]]
  {
    if log == [] then None
    else Some([log[|log| - 1]])
  }

  /** The log uploads of a run, in loop order: each failure writes a fresh
      one-line file and uploads it to the log key. */
  function LogUploads(log: seq<string>): (ups: seq<(string, seq<string>)>)
    ensures |ups| == |log|
    ensures forall i :: 0 <= i < |log| ==> ups[i] == (LogKey, [log[i]])
  {
    seq(|log|, i requires 0 <= i < |log| => (LogKey, [log[i]]))
  }

  /** The object an object store holds at `k` after a sequence of uploads,
      each of which replaces whatever the key held before. */
  function StoredAfter(ups: seq<(string, seq<string>)>, k: string): (r: Option<seq<string>>)
    ensures r.None? <==> forall i :: 0 <= i < |ups| ==> ups[i].0 != k
    ensures r.Some? ==> exists i :: 0 <= i < |ups| && ups[i] == (k, r.value)
                           && forall j :: i < j < |ups| ==> ups[j].0 != k
  {
    if ups == [] then None
    else
      var n := |ups| - 1;
      assert forall i :: 0 <= i < n ==> ups[..n][i] == ups[i];
      if ups[n].0 == k then Some(ups[n].1) else StoredAfter(ups[..n], k)
  }

  /** Uploading each error line over the log key leaves exactly the
      object `StoredLogAsWritten` describes. */
  lemma StoredAfterLogUploads(log: seq<string>)
    ensures StoredAfter(LogUploads(log), LogKey) == StoredLogAsWritten(log)
  {
    if log != [] {
      var ups := LogUploads(log);
      assert ups[|ups| - 1] == (LogKey, [log[|log| - 1]]);
    }
  }

  /** Two failing files: the log the run produces names both, the object
      the source leaves names only the second. */
  lemma StoredLogLosesEarlierErrors()
    ensures var keys := [InputPrefix + "a.txt", InputPrefix + "b.txt"];
      var r := Run(keys, _ => "", _ => None, _ => None);
      && r.log == keys
      && StoredLogAsWritten(r.log) == Some([InputPrefix + "b.txt"])
  {
    var keys := [InputPrefix + "a.txt", InputPrefix + "b.txt"];
    var none: Decoder := _ => None;
    var noRescale: Rescale := _ => None;
    var answer: Answers := _ => "";
    assert Strip("") == "";
    assert CleanGptOutput("") == "";
    var os := Outcomes(keys, answer, none, noRescale);
    assert os[0] == ExtractionError && os[1] == ExtractionError;
    assert keys[..1] == [keys[0]] && keys[..1][..0] == [];
    assert Collect(keys[..1], os[..1]).log == [keys[0]];
  }

  /** The corrected log: the error lines appended in order, so the stored
      log names every failed file. */
  function StoredLog(log: seq<string>): (stored: Option<seq<string>>)
    ensures log == [] <==> stored.None?
    ensures stored.Some? ==> forall k :: k in stored.value <==> k in log
  {
    if log == [] then None
    else
      var earlier := StoredLog(log[..|log| - 1]);
      assert log == log[..|log| - 1] + [log[|log| - 1]];
      Some((if earlier.None? then [] else earlier.value) + [log[|log| - 1]])
  }

  /** With the corrected log, the stored object names exactly the failed files. */
  lemma StoredLogExactly(keys: seq<string>, answer: Answers, decode: Decoder, rescale: Rescale, k: string)
    requires StoredLog(Run(keys, answer, decode, rescale).log).Some?
    ensures k in StoredLog(Run(keys, answer, decode, rescale).log).value <==> k in keys && Fails(k, answer, decode, rescale)
  {
    RunLogExactly(keys, answer, decode, rescale, k);
  }
}
