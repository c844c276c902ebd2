/**
  The slice of Python's `str` behaviour that the pipeline relies on:
  `strip`, `upper`, `lower`, `isalnum`, `startswith`, `endswith`, `count`,
  the `in` substring test, `replace`, `os.path.basename`,
  `os.path.splitext` and decimal formatting with zero padding.
  Case mapping and `isalnum` are modelled on ASCII; `isspace` is written
  out in full because `strip` removes every character it accepts.
 */
module Text {

  // ---------------------------------------------------------------------
  // Whitespace and strip
  // ---------------------------------------------------------------------

  /** The characters for which Python's `str.isspace()` holds. */
  const Whitespace: set<char> := {
    ' ', '\t', '\n', '\U{b}', '\U{c}', '\r', '\U{1c}', '\U{1d}', '\U{1e}', '\U{1f}',
    '\U{85}', '\U{a0}', '\U{1680}', '\U{2000}', '\U{2001}', '\U{2002}', '\U{2003}',
    '\U{2004}', '\U{2005}', '\U{2006}', '\U{2007}', '\U{2008}', '\U{2009}', '\U{200a}',
    '\U{2028}', '\U{2029}', '\U{202f}', '\U{205f}', '\U{3000}'}

  predicate IsSpace(c: char)
  {
    c in Whitespace
  }

  predicate AllSpace(s: string)
  {
    forall i :: 0 <= i < |s| ==> IsSpace(s[i])
  }

  /** Neither the first nor the last character is whitespace. */
  predicate NoEdgeSpace(s: string)
  {
    s == [] || (!IsSpace(s[0]) && !IsSpace(s[|s| - 1]))
  }

  /** Index of the first non-whitespace character at or after `i`. */
  function SkipSpace(s: string, i: nat): (k: nat)
    requires i <= |s|
    ensures i <= k <= |s|
    ensures forall j :: i <= j < k ==> IsSpace(s[j])
    ensures k < |s| ==> !IsSpace(s[k])
    decreases |s| - i
  {
    if i < |s| && IsSpace(s[i]) then SkipSpace(s, i + 1) else i
  }

  /** End of the text before the trailing whitespace of `s[lo..hi]`. */
  function TrimEnd(s: string, lo: nat, hi: nat): (k: nat)
    requires lo <= hi <= |s|
    ensures lo <= k <= hi
    ensures forall j :: k <= j < hi ==> IsSpace(s[j])
    ensures k > lo ==> !IsSpace(s[k - 1])
    decreases hi
  {
    if hi > lo && IsSpace(s[hi - 1]) then TrimEnd(s, lo, hi - 1) else hi
  }

  /** Where `s.strip()` starts in `s`. */
  function StripStart(s: string): nat
  {
    SkipSpace(s, 0)
  }

  /** Where `s.strip()` ends in `s`. */
  function StripEnd(s: string): nat
  {
    TrimEnd(s, StripStart(s), |s|)
  }

  /** `s.strip()`: `s` without its leading and trailing whitespace. Only
      whitespace is cut off, on both sides, and the result has none at
      either edge. */
  function Strip(s: string): (r: string)
    ensures NoEdgeSpace(r)
    ensures StripStart(s) <= StripEnd(s) <= |s|
    ensures r == s[StripStart(s)..StripEnd(s)]
    ensures forall j :: 0 <= j < StripStart(s) ==> IsSpace(s[j])
    ensures forall j :: StripEnd(s) <= j < |s| ==> IsSpace(s[j])
  {
    s[StripStart(s)..StripEnd(s)]
  }

  /** `s` is its stripped form framed by the whitespace cut off each side. */
  lemma StripFrame(s: string)
    ensures s == s[..StripStart(s)] + Strip(s) + s[StripEnd(s)..]
    ensures AllSpace(s[..StripStart(s)]) && AllSpace(s[StripEnd(s)..])
  {
    var lo, hi := StripStart(s), StripEnd(s);
    var r := Strip(s);
    assert AllSpace(s[..lo]) by {
      forall i | 0 <= i < |s[..lo]| ensures IsSpace(s[..lo][i]) {
        assert s[..lo][i] == s[i];
      }
    }
    assert AllSpace(s[hi..]) by {
      forall i | 0 <= i < |s[hi..]| ensures IsSpace(s[hi..][i]) {
        assert s[hi..][i] == s[hi + i];
      }
    }
    assert s == s[..lo] + s[lo..hi] + s[hi..];
  }

  /** Stripping a string that has no whitespace at its edges changes nothing. */
  lemma StripNoEdge(s: string)
    requires NoEdgeSpace(s)
    ensures Strip(s) == s
  {
  }

  /** `strip` is idempotent. */
  lemma StripIdempotent(s: string)
    ensures Strip(Strip(s)) == Strip(s)
  {
    StripNoEdge(Strip(s));
  }

  // ---------------------------------------------------------------------
  // Case and character classes (ASCII)
  // ---------------------------------------------------------------------

  predicate IsDigit(c: char) { '0' <= c <= '9' }
  predicate IsLowerLetter(c: char) { 'a' <= c <= 'z' }
  predicate IsUpperLetter(c: char) { 'A' <= c <= 'Z' }

  /** `c.isalnum()` on ASCII. */
  predicate IsAlnum(c: char)
  {
    IsDigit(c) || IsUpperLetter(c) || IsLowerLetter(c)
  }

  function UpperChar(c: char): (u: char)
    ensures IsLowerLetter(c) ==> IsUpperLetter(u) && u as int == c as int - 32
    ensures !IsLowerLetter(c) ==> u == c
  {
    if IsLowerLetter(c) then (c as int - 32) as char else c
  }

  function LowerChar(c: char): (l: char)
    ensures IsUpperLetter(c) ==> IsLowerLetter(l) && l as int == c as int + 32
    ensures !IsUpperLetter(c) ==> l == c
  {
    if IsUpperLetter(c) then (c as int + 32) as char else c
  }

  /** `s.upper()` on ASCII: every character is mapped independently. */
  function Upper(s: string): (r: string)
    ensures |r| == |s|
    ensures forall i :: 0 <= i < |s| ==> r[i] == UpperChar(s[i])
  {
    seq(|s|, i requires 0 <= i < |s| => UpperChar(s[i]))
  }

  /** `s.lower()` on ASCII. */
  function Lower(s: string): (r: string)
    ensures |r| == |s|
    ensures forall i :: 0 <= i < |s| ==> r[i] == LowerChar(s[i])
  {
    seq(|s|, i requires 0 <= i < |s| => LowerChar(s[i]))
  }

  lemma UpperAppend(a: string, b: string)
    ensures Upper(a + b) == Upper(a) + Upper(b)
  {
  }

  // ---------------------------------------------------------------------
  // Prefixes, suffixes, occurrences
  // ---------------------------------------------------------------------

  predicate StartsWith(s: string, p: string)
  {
    |p| <= |s| && s[..|p|] == p
  }

  predicate EndsWith(s: string, p: string)
  {
    |p| <= |s| && s[|s| - |p|..] == p
  }

  /** `pat` occurs in `s` starting at index `i`. */
  predicate OccursAt(s: string, pat: string, i: int)
  {
    0 <= i && i + |pat| <= |s| && s[i..i + |pat|] == pat
  }

  /** Python's `pat in s`. */
  predicate Contains(s: string, pat: string)
  {
    exists i :: 0 <= i <= |s| - |pat| && OccursAt(s, pat, i)
  }

  /** `s.count(c)` for a one-character argument. */
  function CountChar(s: string, c: char): (n: nat)
    ensures n <= |s|
    ensures n == 0 <==> c !in s
  {
    if s == [] then 0 else (if s[0] == c then 1 else 0) + CountChar(s[1..], c)
  }

  lemma CountCharAppend(a: string, b: string, c: char)
    ensures CountChar(a + b, c) == CountChar(a, c) + CountChar(b, c)
  {
    if a == [] {
      assert a + b == b;
    } else {
      assert (a + b)[1..] == a[1..] + b;
      CountCharAppend(a[1..], b, c);
    }
  }

  // ---------------------------------------------------------------------
  // replace
  // ---------------------------------------------------------------------

  /** `s.replace("", rep)`: `rep` before every character and at the end. */
  function Interleave(s: string, rep: string): (r: string)
    ensures |r| == |s| + (|s| + 1) * |rep|
  {
    if s == [] then rep else rep + [s[0]] + Interleave(s[1..], rep)
  }

  /** `s.replace(pat, rep)`: every non-overlapping occurrence of `pat`,
      scanning from the left, is replaced by `rep`. */
  function ReplaceAll(s: string, pat: string, rep: string): string
    decreases |s|
  {
    if pat == [] then Interleave(s, rep)
    else if |s| < |pat| then s
    else if s[..|pat|] == pat then rep + ReplaceAll(s[|pat|..], pat, rep)
    else [s[0]] + ReplaceAll(s[1..], pat, rep)
  }

  /** A string in which `pat` does not occur is returned unchanged. */
  lemma {:induction false} ReplaceAbsent(s: string, pat: string, rep: string)
    requires pat != [] && !Contains(s, pat)
    ensures ReplaceAll(s, pat, rep) == s
  {
    if |s| >= |pat| {
      assert !OccursAt(s, pat, 0);
      assert !Contains(s[1..], pat) by {
        forall i | OccursAt(s[1..], pat, i) ensures false {
          assert s[1..][i..i + |pat|] == s[i + 1..i + 1 + |pat|];
          assert OccursAt(s, pat, i + 1);
        }
      }
      ReplaceAbsent(s[1..], pat, rep);
    }
  }

  /** A leading occurrence is replaced and the scan resumes after it. */
  lemma ReplaceLeading(pat: string, rest: string, rep: string)
    requires pat != []
    ensures ReplaceAll(pat + rest, pat, rep) == rep + ReplaceAll(rest, pat, rep)
  {
    assert (pat + rest)[..|pat|] == pat;
    assert (pat + rest)[|pat|..] == rest;
  }

  /** Replacing a leading pattern that occurs nowhere in the rest changes
      only that prefix. */
  lemma ReplacePrefixOnly(pat: string, rest: string, rep: string)
    requires pat != [] && !Contains(rest, pat)
    ensures ReplaceAll(pat + rest, pat, rep) == rep + rest
  {
    ReplaceLeading(pat, rest, rep);
    ReplaceAbsent(rest, pat, rep);
  }

  /** A pattern beginning with "da" cannot start inside the head
      "archived/", so it occurs in "archived/" + name only if in name. */
  lemma ArchivedHeadClean(pat: string, name: string)
    requires |pat| >= 2 && pat[0] == 'd' && pat[1] == 'a'
    requires !Contains(name, pat)
    ensures !Contains("archived/" + name, pat)
  {
    var head := "archived/";
    var s := head + name;
    forall i | 0 <= i <= |s| - |pat| && OccursAt(s, pat, i)
      ensures false
    {
      var w := s[i..i + |pat|];
      assert w[0] == s[i] && w[1] == s[i + 1];
      if i >= |head| {
        assert w == name[i - |head|..i - |head| + |pat|];
        assert OccursAt(name, pat, i - |head|);
      }
    }
  }

  /** `key.replace(from, to)`: the archive key of a processed object,
      every occurrence of the input folder `from` replaced by the archive
      folder `to`. */
  function ArchiveKey(key: string, from: string, to: string): string
  {
    ReplaceAll(key, from, to)
  }

  /** A key directly under the input folder moves to the same name under
      the archive folder. */
  lemma ArchiveKeyOfListed(from: string, to: string, name: string)
    requires from != [] && !Contains(name, from)
    ensures ArchiveKey(from + name, from, to) == to + name
  {
    ReplacePrefixOnly(from, name, to);
  }

  /** When the archive folder is `archived/` inside the input folder, a
      key already archived gains a second `archived/`. */
  lemma ArchiveKeyOfArchived(from: string, name: string)
    requires |from| >= 2 && from[0] == 'd' && from[1] == 'a'
    requires !Contains(name, from)
    ensures ArchiveKey(from + "archived/" + name, from, from + "archived/") == from + "archived/" + "archived/" + name
  {
    var rest := "archived/" + name;
    assert from + "archived/" + name == from + rest;
    ArchivedHeadClean(from, name);
    ArchiveKeyOfListed(from, from + "archived/", rest);
  }

  /** `s` without any occurrence of `c`. */
  function RemoveChar(s: string, c: char): (r: string)
    ensures c !in r
    ensures forall x :: x in r ==> x in s
  {
    if s == [] then [] else (if s[0] == c then [] else [s[0]]) + RemoveChar(s[1..], c)
  }

  /** Replacing a one-character string by nothing removes that character. */
  lemma {:induction false} ReplaceCharByNothing(s: string, c: char)
    ensures ReplaceAll(s, [c], "") == RemoveChar(s, c)
  {
    if s != [] {
      ReplaceCharByNothing(s[1..], c);
      assert s[..1] == [s[0]];
    }
  }

  // ---------------------------------------------------------------------
  // Paths
  // ---------------------------------------------------------------------

  /** Index of the last `c` in `s`, or -1 (Python's `rfind`). */
  function LastIndexOf(s: string, c: char): (k: int)
    ensures -1 <= k < |s|
    ensures k >= 0 ==> s[k] == c
    ensures forall j :: k < j < |s| ==> s[j] != c
  {
    if s == [] then -1
    else if s[|s| - 1] == c then |s| - 1
    else LastIndexOf(s[..|s| - 1], c)
  }

  /** `os.path.basename(p)`: everything after the last `/`. */
  function Basename(p: string): (b: string)
    ensures '/' !in b
    ensures |b| <= |p| && b == p[|p| - |b|..]
    ensures |b| < |p| ==> p[|p| - |b| - 1] == '/'
  {
    p[LastIndexOf(p, '/') + 1..]
  }

  /** The base name of a file in a folder is the file's own name. */
  lemma BasenameOf(dir: string, name: string)
    requires '/' !in name && EndsWith(dir, "/")
    ensures Basename(dir + name) == name
  {
    var p := dir + name;
    assert p[|dir| - 1] == '/';
    assert forall j :: |dir| <= j < |p| ==> p[j] == name[j - |dir|];
    assert LastIndexOf(p, '/') == |dir| - 1;
    assert p[|dir|..] == name;
  }

  /** `os.path.splitext(name)[0]` for a name without `/`: the text before the
      last `.`, unless every character before that dot is itself a dot
      (a leading-dot name such as `.profile` has no extension). */
  function StripExtension(name: string): (root: string)
    ensures StartsWith(name, root)
  {
    var d := LastIndexOf(name, '.');
    if d <= 0 || forall i :: 0 <= i < d ==> name[i] == '.' then name else name[..d]
  }

  /** Adding one extension to a name that has a non-dot character and no `/`
      is undone by `StripExtension`. */
  lemma StripExtensionOf(stem: string, ext: string)
    requires exists i :: 0 <= i < |stem| && stem[i] != '.'
    requires '.' !in ext
    ensures StripExtension(stem + "." + ext) == stem
  {
    var name := stem + "." + ext;
    var d := LastIndexOf(name, '.');
    assert name[|stem|] == '.';
    assert d == |stem|;
    assert name[..d] == stem;
  }

  /** The keys of a listing whose lower-cased form ends with `suffix`, in
      listing order (`[k for k in keys if k.lower().endswith(suffix)]`). */
  function KeysEndingWith(keys: seq<string>, suffix: string): (r: seq<string>)
    ensures |r| <= |keys|
    ensures forall k :: k in r <==> k in keys && EndsWith(Lower(k), suffix)
  {
    if keys == [] then []
    else
      var init := keys[..|keys| - 1];
      var last := keys[|keys| - 1];
      assert keys == init + [last];
      KeysEndingWith(init, suffix) + (if EndsWith(Lower(last), suffix) then [last] else [])
  }

  /** The filter keeps listing order: filtering a concatenation
      concatenates the filtered parts. */
  lemma {:induction false} KeysEndingWithAppend(a: seq<string>, b: seq<string>, suffix: string)
    ensures KeysEndingWith(a + b, suffix) == KeysEndingWith(a, suffix) + KeysEndingWith(b, suffix)
  {
    if b == [] {
      assert a + b == a;
    } else {
      var ab := a + b;
      var init := b[..|b| - 1];
      var last := b[|b| - 1];
      assert ab[..|ab| - 1] == a + init;
      assert ab[|ab| - 1] == last;
      var t := if EndsWith(Lower(last), suffix) then [last] else [];
      calc {
        KeysEndingWith(ab, suffix);
        KeysEndingWith(a + init, suffix) + t;
        { KeysEndingWithAppend(a, init, suffix); }
        (KeysEndingWith(a, suffix) + KeysEndingWith(init, suffix)) + t;
        KeysEndingWith(a, suffix) + (KeysEndingWith(init, suffix) + t);
        KeysEndingWith(a, suffix) + KeysEndingWith(b, suffix);
      }
    }
  }

  /** A single key is kept exactly when its lower-cased form has the suffix. */
  lemma KeysEndingWithOne(k: string, suffix: string)
    ensures KeysEndingWith([k], suffix) == if EndsWith(Lower(k), suffix) then [k] else []
  {
    assert [k][..0] == [];
  }

  // ---------------------------------------------------------------------
  // Decimal digits
  // ---------------------------------------------------------------------

  predicate AllDigits(s: string)
  {
    forall i :: 0 <= i < |s| ==> IsDigit(s[i])
  }

  function DigitChar(d: nat): (c: char)
    requires d < 10
    ensures IsDigit(c)
  {
    ('0' as int + d) as char
  }

  function DigitValue(c: char): (d: nat)
    requires IsDigit(c)
    ensures d < 10
  {
    c as int - '0' as int
  }

  /** `str(n)` for a natural number. */
  function NatToString(n: nat): (s: string)
    ensures s != [] && AllDigits(s)
  {
    if n < 10 then [DigitChar(n)] else NatToString(n / 10) + [DigitChar(n % 10)]
  }

  function Pow10(k: nat): (p: nat)
    ensures p >= 1
  {
    if k == 0 then 1 else 10 * Pow10(k - 1)
  }

  /** A number below `10^k` has at most `k` digits. */
  lemma {:induction false} NatToStringLength(n: nat, k: nat)
    requires 1 <= k && n < Pow10(k)
    ensures |NatToString(n)| <= k
  {
    if n >= 10 {
      NatToStringLength(n / 10, k - 1);
    }
  }

  /** `int(s)` for a string of decimal digits (the empty string reads as 0). */
  function ParseDigits(s: string): nat
    requires AllDigits(s)
  {
    if s == [] then 0 else 10 * ParseDigits(s[..|s| - 1]) + DigitValue(s[|s| - 1])
  }

  lemma {:induction false} ParseNatToString(n: nat)
    ensures ParseDigits(NatToString(n)) == n
  {
    if n >= 10 {
      var s := NatToString(n);
      assert s[..|s| - 1] == NatToString(n / 10);
      ParseNatToString(n / 10);
    }
  }

  function Zeros(k: nat): (z: string)
    ensures |z| == k && AllDigits(z)
    ensures forall i :: 0 <= i < k ==> z[i] == '0'
  {
    seq(k, _ => '0')
  }

  /** Leading zeros do not change the value. */
  lemma {:induction false} ParseLeadingZeros(k: nat, s: string)
    requires AllDigits(s)
    ensures ParseDigits(Zeros(k) + s) == ParseDigits(s)
  {
    if s == [] {
      assert Zeros(k) + s == Zeros(k);
      ZerosParse(k);
    } else {
      var t := Zeros(k) + s;
      assert t[..|t| - 1] == Zeros(k) + s[..|s| - 1];
      ParseLeadingZeros(k, s[..|s| - 1]);
    }
  }

  lemma {:induction false} ZerosParse(k: nat)
    ensures ParseDigits(Zeros(k)) == 0
  {
    if k > 0 {
      assert Zeros(k)[..k - 1] == Zeros(k - 1);
      ZerosParse(k - 1);
    }
  }

  /** Python's `f"{n:0wd}"` for `n >= 0`: at least `w` characters, zero-filled
      on the left; a longer number is kept whole. */
  function ZeroPad(n: nat, w: nat): (s: string)
    ensures AllDigits(s) && s != []
    ensures |s| == if |NatToString(n)| < w then w else |NatToString(n)|
    ensures EndsWith(s, NatToString(n))
    ensures ParseDigits(s) == n
  {
    var d := NatToString(n);
    var s := Zeros(if |d| < w then w - |d| else 0) + d;
    ParseLeadingZeros(if |d| < w then w - |d| else 0, d);
    ParseNatToString(n);
    assert s[|s| - |d|..] == d;
    s
  }
}
