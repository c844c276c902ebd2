/**
  The patient-name key used to compare claims with orders
  (`normalize_text` in utils/map_to_fm.py): strip, upper-case, keep the
  alphanumeric characters and sort them. The key is an anagram class: two
  names get the same key exactly when they contain the same letters and
  digits, whatever their order, case, spacing or punctuation.
 */
module NameKey {
  import opened Base
  import opened Text
  import opened Json

  /** The characters of `s` for which `isalnum()` holds, in order. */
  function KeepAlnum(s: string): (r: string)
    ensures |r| <= |s|
  {
    if s == [] then []
    else if IsAlnum(s[0]) then [s[0]] + KeepAlnum(s[1..])
    else KeepAlnum(s[1..])
  }

  lemma {:induction false} KeepAlnumAppend(a: string, b: string)
    ensures KeepAlnum(a + b) == KeepAlnum(a) + KeepAlnum(b)
  {
    if a == [] {
      assert a + b == b;
    } else {
      assert (a + b)[0] == a[0];
      assert (a + b)[1..] == a[1..] + b;
      KeepAlnumAppend(a[1..], b);
      if IsAlnum(a[0]) {
        assert KeepAlnum(a + b) == [a[0]] + (KeepAlnum(a[1..]) + KeepAlnum(b));
      }
    }
  }

  lemma {:induction false} KeepAlnumNone(s: string)
    requires forall i :: 0 <= i < |s| ==> !IsAlnum(s[i])
    ensures KeepAlnum(s) == []
  {
    if s != [] {
      KeepAlnumNone(s[1..]);
    }
  }

  lemma {:induction false} KeepAlnumAll(s: string)
    requires forall i :: 0 <= i < |s| ==> IsAlnum(s[i])
    ensures KeepAlnum(s) == s
  {
    if s != [] {
      KeepAlnumAll(s[1..]);
    }
  }

  /** The characters a name contributes to its key, before sorting:
      the alphanumerics of its upper-cased form. */
  function KeyChars(text: string): string
  {
    KeepAlnum(Upper(text))
  }

  /** Keys are made of upper-case letters and digits only. */
  predicate KeyAlphabet(s: string)
  {
    forall i :: 0 <= i < |s| ==> IsDigit(s[i]) || IsUpperLetter(s[i])
  }

  lemma {:induction false} KeepAlnumAlphabet(s: string)
    requires forall i :: 0 <= i < |s| ==> !IsLowerLetter(s[i])
    ensures KeyAlphabet(KeepAlnum(s))
  {
    if s != [] {
      KeepAlnumAlphabet(s[1..]);
    }
  }

  lemma KeyCharsAlphabet(text: string)
    ensures KeyAlphabet(KeyChars(text))
  {
    KeepAlnumAlphabet(Upper(text));
  }

  /** Rearranging characters keeps them in the key alphabet. */
  lemma AlphabetPermutation(a: string, b: string)
    requires KeyAlphabet(a) && multiset(a) == multiset(b)
    ensures KeyAlphabet(b)
  {
    forall i | 0 <= i < |b| ensures IsDigit(b[i]) || IsUpperLetter(b[i]) {
      assert b[i] in multiset(a);
      var j :| 0 <= j < |a| && a[j] == b[i];
    }
  }

  lemma KeyCharsAppend(a: string, b: string)
    ensures KeyChars(a + b) == KeyChars(a) + KeyChars(b)
  {
    UpperAppend(a, b);
    KeepAlnumAppend(Upper(a), Upper(b));
  }

  /** Separators (spaces, commas, hyphens, ...) contribute nothing. */
  lemma KeyCharsSeparator(sep: string)
    requires forall i :: 0 <= i < |sep| ==> !IsAlnum(sep[i])
    ensures KeyChars(sep) == []
  {
    KeepAlnumNone(Upper(sep));
  }

  lemma SpaceNotAlnum(c: char)
    requires IsSpace(c)
    ensures !IsAlnum(c)
  {
  }

  lemma KeyCharsSpace(s: string)
    requires AllSpace(s)
    ensures KeyChars(s) == []
  {
    forall i | 0 <= i < |s| ensures !IsAlnum(s[i]) {
      SpaceNotAlnum(s[i]);
    }
    KeyCharsSeparator(s);
  }

  /** Whitespace around a text contributes nothing to its key. */
  lemma KeyCharsFramed(pre: string, mid: string, post: string)
    requires AllSpace(pre) && AllSpace(post)
    ensures KeyChars(pre + mid + post) == KeyChars(mid)
  {
    KeyCharsAppend(pre + mid, post);
    KeyCharsAppend(pre, mid);
    KeyCharsSpace(pre);
    KeyCharsSpace(post);
  }

  /** Leading and trailing whitespace contribute nothing, so `strip()`
      does not change which characters reach the key. */
  lemma KeyCharsStrip(text: string)
    ensures KeyChars(Strip(text)) == KeyChars(text)
  {
    StripFrame(text);
    KeyCharsFramed(text[..StripStart(text)], Strip(text), text[StripEnd(text)..]);
  }

  predicate Sorted(s: string)
  {
    forall i, j :: 0 <= i < j < |s| ==> s[i] <= s[j]
  }

  /** Inserts `c` in front of the first character not below it. */
  function Insert(c: char, s: string): (r: string)
    ensures |r| == |s| + 1
    ensures r[0] == if s == [] || c <= s[0] then c else s[0]
  {
    if s == [] || c <= s[0] then [c] + s
    else [s[0]] + Insert(c, s[1..])
  }

  /** Inserting into a sorted string keeps it sorted. */
  lemma {:induction false} InsertSorted(c: char, s: string)
    requires Sorted(s)
    ensures Sorted(Insert(c, s))
  {
    if s == [] || c <= s[0] {
      ConsSorted(c, s);
    } else {
      SortedTail(s);
      InsertSorted(c, s[1..]);
      var t := Insert(c, s[1..]);
      assert s[0] <= t[0];
      ConsSorted(s[0], t);
    }
  }

  /** Inserting adds exactly one occurrence of `c`. */
  lemma {:induction false} InsertMultiset(c: char, s: string)
    ensures multiset(Insert(c, s)) == multiset(s) + multiset{c}
  {
    if s == [] || c <= s[0] {
    } else {
      TailMultiset(s);
      InsertMultiset(c, s[1..]);
    }
  }

  lemma ConsSorted(x: char, t: string)
    requires Sorted(t) && (t != [] ==> x <= t[0])
    ensures Sorted([x] + t)
  {
    var r := [x] + t;
    forall i, j | 0 <= i < j < |r| ensures r[i] <= r[j] {
      if i > 0 {
        assert r[i] == t[i - 1] && r[j] == t[j - 1];
      } else {
        assert r[j] == t[j - 1];
      }
    }
  }

  /** Python's `sorted()` on a string: the same characters in
      non-decreasing code-point order. */
  function SortChars(s: string): (r: string)
    ensures Sorted(r)
    ensures multiset(r) == multiset(s)
  {
    if s == [] then []
    else
      assert s == [s[0]] + s[1..];
      InsertSorted(s[0], SortChars(s[1..]));
      InsertMultiset(s[0], SortChars(s[1..]));
      Insert(s[0], SortChars(s[1..]))
  }

  lemma SortedHeadMin(a: string, x: char)
    requires Sorted(a) && x in multiset(a)
    ensures a != [] && a[0] <= x
  {
    assert x in a;
    var k :| 0 <= k < |a| && a[k] == x;
  }

  lemma SortedTail(s: string)
    requires s != [] && Sorted(s)
    ensures Sorted(s[1..])
  {
    forall i, j | 0 <= i < j < |s| - 1 ensures s[1..][i] <= s[1..][j] {
      assert s[1..][i] == s[i + 1] && s[1..][j] == s[j + 1];
    }
  }

  lemma TailMultiset(s: string)
    requires s != []
    ensures multiset(s[1..]) == multiset(s) - multiset{s[0]}
  {
    assert s == [s[0]] + s[1..];
  }

  lemma HeadTail(s: string)
    requires s != []
    ensures s == [s[0]] + s[1..]
  {
  }

  /** Two sorted strings with the same characters start with the same one. */
  lemma SameHead(a: string, b: string)
    requires a != [] && Sorted(a) && Sorted(b)
    requires multiset(a) == multiset(b)
    ensures b != [] && a[0] == b[0]
  {
    assert a[0] in multiset(a);
    SortedHeadMin(b, a[0]);
    assert b[0] in multiset(b);
    SortedHeadMin(a, b[0]);
  }

  /** A sorted string is determined by its multiset of characters. */
  lemma {:induction false} SortedUnique(a: string, b: string)
    requires Sorted(a) && Sorted(b)
    requires multiset(a) == multiset(b)
    ensures a == b
  {
    if a == [] {
      assert |b| == |multiset(b)| == 0;
    } else {
      SameHead(a, b);
      var ta, tb := a[1..], b[1..];
      TailMultiset(a);
      TailMultiset(b);
      SortedTail(a);
      SortedTail(b);
      SortedUnique(ta, tb);
      HeadTail(a);
      HeadTail(b);
    }
  }

  /** `normalize_text(text)` for a string argument. */
  function NormalizeText(text: string): (key: string)
    ensures Sorted(key)
    ensures multiset(key) == multiset(KeyChars(text))
  {
    if text == "" then ""
    else
      KeyCharsStrip(text);
      SortChars(KeepAlnum(Upper(Strip(text))))
  }

  /** `normalize_text(value)` for whatever the claim document holds: any
      falsy value gives the empty key, a string is normalized, and any
      other truthy value makes `.strip()` raise (None here). */
  function NormalizeValue(v: Json): (r: Option<string>)
    ensures !Truthy(v) ==> r == Some("")
    ensures v.Str? ==> r == Some(NormalizeText(v.s))
    ensures Truthy(v) && !v.Str? ==> r == None
  {
    if !Truthy(v) then Some("")
    else if v.Str? then Some(NormalizeText(v.s))
    else None
  }

  /** Two names get the same key exactly when their upper-cased
      alphanumerics are the same multiset. */
  lemma NormalizeAnagram(a: string, b: string)
    ensures NormalizeText(a) == NormalizeText(b) <==> multiset(KeyChars(a)) == multiset(KeyChars(b))
  {
    if multiset(KeyChars(a)) == multiset(KeyChars(b)) {
      SortedUnique(NormalizeText(a), NormalizeText(b));
    }
  }

  /** Keys are already upper case. */
  lemma UpperOfKey(k: string)
    requires KeyAlphabet(k)
    ensures Upper(k) == k
  {
    forall i | 0 <= i < |k| ensures Upper(k)[i] == k[i] {
      assert !IsLowerLetter(k[i]);
    }
  }

  /** Normalizing a key gives the key back. */
  lemma NormalizeIdempotent(text: string)
    ensures NormalizeText(NormalizeText(text)) == NormalizeText(text)
  {
    var k := NormalizeText(text);
    KeyCharsAlphabet(text);
    AlphabetPermutation(KeyChars(text), k);
    UpperOfKey(k);
    KeepAlnumAll(k);
    SortedUnique(NormalizeText(k), k);
  }

  /** Word order does not matter: "JOHN SMITH" and "SMITH JOHN". */
  lemma NormalizeWordOrder(first: string, second: string, sep: string)
    requires forall i :: 0 <= i < |sep| ==> !IsAlnum(sep[i])
    ensures NormalizeText(first + sep + second) == NormalizeText(second + sep + first)
  {
    KeyCharsJoin(first, sep, second);
    KeyCharsJoin(second, sep, first);
    SwappedKeys(first + sep + second, second + sep + first, KeyChars(first), KeyChars(second));
  }

  /** A separator between two words adds nothing to the key. */
  lemma KeyCharsJoin(x: string, sep: string, y: string)
    requires forall i :: 0 <= i < |sep| ==> !IsAlnum(sep[i])
    ensures KeyChars(x + sep + y) == KeyChars(x) + KeyChars(y)
  {
    KeyCharsAppend(x + sep, y);
    KeyCharsAppend(x, sep);
    KeyCharsSeparator(sep);
  }

  /** Names whose key characters are the same two blocks in either order
      get the same key. */
  lemma SwappedKeys(a: string, b: string, x: string, y: string)
    requires KeyChars(a) == x + y && KeyChars(b) == y + x
    ensures NormalizeText(a) == NormalizeText(b)
  {
    assert multiset(KeyChars(a)) == multiset(x) + multiset(y) == multiset(KeyChars(b));
    NormalizeAnagram(a, b);
  }

  /** A character that is not alphanumeric (punctuation, a space) can be
      inserted anywhere without changing the key. */
  lemma NormalizeIgnoresPunctuation(before: string, c: char, after: string)
    requires !IsAlnum(c)
    ensures NormalizeText(before + [c] + after) == NormalizeText(before + after)
  {
    KeyCharsAppend(before + [c], after);
    KeyCharsAppend(before, [c]);
    KeyCharsAppend(before, after);
    KeyCharsSeparator([c]);
    NormalizeAnagram(before + [c] + after, before + after);
  }

  /** Case does not matter. */
  lemma NormalizeCaseInsensitive(text: string)
    ensures NormalizeText(Lower(text)) == NormalizeText(text)
    ensures NormalizeText(Upper(text)) == NormalizeText(text)
  {
    assert Upper(Lower(text)) == Upper(text);
    assert Upper(Upper(text)) == Upper(text);
    NormalizeAnagram(Lower(text), text);
    NormalizeAnagram(Upper(text), text);
  }

  lemma KeyCharsCase(text: string)
    ensures KeyChars(Upper(text)) == KeyChars(text)
    ensures KeyChars(Lower(text)) == KeyChars(text)
  {
    assert Upper(Upper(text)) == Upper(text);
    assert Upper(Lower(text)) == Upper(text);
  }

  /** "Jane Doe" and "DOE, jane" get one key, for every first and last name. */
  lemma FirstLastVersusLastCommaFirst(first: string, last: string)
    ensures NormalizeText(first + " " + last) == NormalizeText(Upper(last) + ", " + Lower(first))
  {
    var space, comma := " ", ", ";
    KeyCharsJoin(first, space, last);
    KeyCharsJoin(Upper(last), comma, Lower(first));
    KeyCharsCase(last);
    KeyCharsCase(first);
    SwappedKeys(first + space + last, Upper(last) + comma + Lower(first), KeyChars(first), KeyChars(last));
  }
}
