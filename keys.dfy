/**
 * Key normalisation for the neighbourhood-to-district lookup (normalize_key in dashboard.py),
 * together with the two pieces of Python text handling the region code relies on:
 * str() of a table cell and str.strip().
 */
module Keys {

  datatype Option<+T> = None | Some(value: T)

  /** One cell of a table read through pandas: a missing value (SQL NULL, NaN) or a string. */
  datatype Cell = Null | Text(s: string)

  /** Python's str() of a cell; a missing value read from a CSV file is NaN, which renders as "nan". */
  function Str(c: Cell): (r: string)
    ensures c.Text? ==> r == c.s
    ensures c.Null? ==> r == "nan"
  {
    match c
    case Null => "nan"
    case Text(s) => s
  }

  // ---------------------------------------------------------------------------------------------
  // Whitespace and str.strip()
  // ---------------------------------------------------------------------------------------------

  /** The characters for which Python's str.isspace() holds. */
  predicate IsSpace(c: char) {
    || c == ' '
    || '\t' <= c <= '\r'
    || '\U{1C}' <= c <= '\U{1F}'
    || c == '\U{85}' || c == '\U{A0}' || c == '\U{1680}'
    || '\U{2000}' <= c <= '\U{200A}'
    || c == '\U{2028}' || c == '\U{2029}' || c == '\U{202F}' || c == '\U{205F}' || c == '\U{3000}'
  }

  predicate AllSpace(s: string) {
    forall i :: 0 <= i < |s| ==> IsSpace(s[i])
  }

  /** Drops leading whitespace. */
  function TrimStart(s: string): (r: string)
    ensures |r| <= |s|
  {
    if s != [] && IsSpace(s[0]) then TrimStart(s[1..]) else s
  }

  /** Drops trailing whitespace. */
  function TrimEnd(s: string): (r: string)
    ensures |r| <= |s|
  {
    if s != [] && IsSpace(s[|s| - 1]) then TrimEnd(s[..|s| - 1]) else s
  }

  /** TrimStart leaves the suffix of s that starts at its first non-space. */
  lemma {:induction false} TrimStartIsSuffix(s: string)
    ensures TrimStart(s) == s[|s| - |TrimStart(s)|..]
    ensures AllSpace(s[..|s| - |TrimStart(s)|])
    ensures TrimStart(s) == [] || !IsSpace(TrimStart(s)[0])
  {
    if s != [] && IsSpace(s[0]) {
      TrimStartIsSuffix(s[1..]);
      var n := |s| - |TrimStart(s)|;
      assert s[..n] == [s[0]] + s[1..][..n - 1];
    }
  }

  /** TrimEnd leaves the prefix of s that ends at its last non-space. */
  lemma {:induction false} TrimEndIsPrefix(s: string)
    ensures TrimEnd(s) == s[..|TrimEnd(s)|]
    ensures AllSpace(s[|TrimEnd(s)|..])
    ensures TrimEnd(s) == [] || !IsSpace(TrimEnd(s)[|TrimEnd(s)| - 1])
  {
    if s != [] && IsSpace(s[|s| - 1]) {
      TrimEndIsPrefix(s[..|s| - 1]);
      var n := |TrimEnd(s)|;
      assert s[n..] == s[..|s| - 1][n..] + [s[|s| - 1]];
    }
  }

  /** Python's str.strip(). */
  function Strip(s: string): (r: string)
    ensures |r| <= |s|
  {
    TrimEnd(TrimStart(s))
  }

  /**
   * The result of str.strip() is the slice of s left after removing a whitespace-only prefix
   * and a whitespace-only suffix, and it begins and ends with a non-space.
   */
  lemma StripIsSlice(s: string)
    ensures exists i :: 0 <= i <= |s| - |Strip(s)| && s[i..i + |Strip(s)|] == Strip(s) && AllSpace(s[..i]) && AllSpace(s[i + |Strip(s)|..])
    ensures Strip(s) == [] || (!IsSpace(Strip(s)[0]) && !IsSpace(Strip(s)[|Strip(s)| - 1]))
  {
    var t := TrimStart(s);
    var r := TrimEnd(t);
    TrimStartIsSuffix(s);
    TrimEndIsPrefix(t);
    var i := |s| - |t|;
    assert s[i..i + |r|] == r;
    assert s[i + |r|..] == t[|r|..];
    if r != [] {
      assert r[0] == t[0];
    }
  }

  /** A string strips to nothing exactly when it is whitespace only. */
  lemma StripEmptyIffBlank(s: string)
    ensures Strip(s) == "" <==> AllSpace(s)
  {
    var r := Strip(s);
    StripIsSlice(s);
    var i :| 0 <= i <= |s| - |r| && s[i..i + |r|] == r && AllSpace(s[..i]) && AllSpace(s[i + |r|..]);
    if r == "" {
      assert s == s[..i] + s[i..];
      assert forall k :: i <= k < |s| ==> s[k] == s[i..][k - i];
    }
  }

  // ---------------------------------------------------------------------------------------------
  // The key filter: re.sub(r'[^가-힣a-zA-Z0-9]', '', text)
  // ---------------------------------------------------------------------------------------------

  /** A character the key keeps: a precomposed Hangul syllable, an ASCII letter or an ASCII digit. */
  predicate IsKeyChar(c: char) {
    || '\U{AC00}' <= c <= '\U{D7A3}'
    || 'a' <= c <= 'z'
    || 'A' <= c <= 'Z'
    || '0' <= c <= '9'
  }

  predicate AllKeyChars(s: string) {
    forall i :: 0 <= i < |s| ==> IsKeyChar(s[i])
  }

  /** Removes every character that is not a key character, keeping the others in order. */
  function KeepKeyChars(s: string): (r: string)
    ensures |r| <= |s|
    ensures AllKeyChars(r)
  {
    if s == [] then [] else (if IsKeyChar(s[0]) then [s[0]] else []) + KeepKeyChars(s[1..])
  }

  /** a can be obtained from b by deleting characters (greedy left-to-right matching). */
  predicate IsSubsequence(a: string, b: string)
    decreases |b|
  {
    if a == [] then true
    else if b == [] then false
    else if a[0] == b[0] then IsSubsequence(a[1..], b[1..])
    else IsSubsequence(a, b[1..])
  }

  lemma {:induction false} KeepKeyCharsIsSubsequence(s: string)
    ensures IsSubsequence(KeepKeyChars(s), s)
  {
    if s != [] {
      KeepKeyCharsIsSubsequence(s[1..]);
      var rest := KeepKeyChars(s[1..]);
      if IsKeyChar(s[0]) {
        assert KeepKeyChars(s) == [s[0]] + rest;
        assert ([s[0]] + rest)[1..] == rest;
      } else {
        assert KeepKeyChars(s) == rest;
      }
    }
  }

  /** The filter keeps every occurrence of every key character and nothing else. */
  lemma {:induction false} KeepKeyCharsCounts(s: string, c: char)
    ensures multiset(KeepKeyChars(s))[c] == if IsKeyChar(c) then multiset(s)[c] else 0
  {
    if s != [] {
      KeepKeyCharsCounts(s[1..], c);
      assert s == [s[0]] + s[1..];
      assert multiset(s) == multiset{s[0]} + multiset(s[1..]);
    }
  }

  /** The filter leaves a string unchanged exactly when it already consists of key characters. */
  lemma {:induction false} KeepKeyCharsFixed(s: string)
    ensures KeepKeyChars(s) == s <==> AllKeyChars(s)
  {
    if s != [] {
      KeepKeyCharsFixed(s[1..]);
      if AllKeyChars(s) {
        assert AllKeyChars(s[1..]) by {
          forall i | 0 <= i < |s[1..]| ensures IsKeyChar(s[1..][i]) { assert s[1..][i] == s[i + 1]; }
        }
        assert s == [s[0]] + s[1..];
      }
    }
  }

  lemma KeepKeyCharsIdempotent(s: string)
    ensures KeepKeyChars(KeepKeyChars(s)) == KeepKeyChars(s)
  {
    KeepKeyCharsFixed(KeepKeyChars(s));
  }

  /** No whitespace character is a key character, so a blank string filters to nothing. */
  lemma {:induction false} KeepKeyCharsOfBlank(s: string)
    requires AllSpace(s)
    ensures KeepKeyChars(s) == ""
  {
    if s != [] {
      assert AllSpace(s[1..]) by {
        forall i | 0 <= i < |s[1..]| ensures IsSpace(s[1..][i]) { assert s[1..][i] == s[i + 1]; }
      }
      KeepKeyCharsOfBlank(s[1..]);
      assert IsSpace(s[0]);
    }
  }

  // ---------------------------------------------------------------------------------------------
  // normalize_key
  // ---------------------------------------------------------------------------------------------

  /**
   * normalize_key: None for a missing or empty cell; otherwise the NFC form of the text with
   * every non-key character removed (which can be the empty string). The Unicode normalisation
   * is the parameter nfc.
   */
  function NormalizeKey(nfc: string -> string, text: Cell): (r: Option<string>)
    ensures r.None? <==> text == Null || text == Text("")
    ensures r.Some? ==> AllKeyChars(r.value) && IsSubsequence(r.value, nfc(text.s))
  {
    match text
    case Null => None
    case Text(s) =>
      if s == "" then None
      else
        KeepKeyCharsIsSubsequence(nfc(s));
        Some(KeepKeyChars(nfc(s)))
  }

  /**
   * The key as the callers test it (`if key:` / `if not clean_dong:`): None and the empty
   * string are both falsy, so both read as "".
   */
  function LookupKey(nfc: string -> string, text: Cell): (k: string)
    ensures AllKeyChars(k)
    ensures NormalizeKey(nfc, text).Some? ==> k == NormalizeKey(nfc, text).value
    ensures NormalizeKey(nfc, text).None? ==> k == ""
  {
    match NormalizeKey(nfc, text)
    case None => ""
    case Some(k) => k
  }

  /** Unicode normalisation leaves strings of Hangul syllables and ASCII letters and digits alone. */
  ghost predicate FixesKeyStrings(nfc: string -> string) {
    forall s :: AllKeyChars(s) ==> nfc(s) == s
  }

  /** Unicode normalisation maps a whitespace-only string to a whitespace-only string. */
  ghost predicate KeepsBlank(nfc: string -> string) {
    forall s :: AllSpace(s) ==> AllSpace(nfc(s))
  }

  /**
   * Normalising an already normalised key gives the same key: a non-empty key maps to itself,
   * and an empty one stays falsy.
   */
  lemma NormalizeKeyIdempotent(nfc: string -> string, text: Cell)
    requires FixesKeyStrings(nfc)
    ensures LookupKey(nfc, Text(LookupKey(nfc, text))) == LookupKey(nfc, text)
    ensures LookupKey(nfc, text) != "" ==> NormalizeKey(nfc, Text(LookupKey(nfc, text))) == Some(LookupKey(nfc, text))
  {
    var k := LookupKey(nfc, text);
    if k != "" {
      assert nfc(k) == k;
      KeepKeyCharsFixed(k);
    }
  }

  /** A missing, empty or whitespace-only cell has no usable key. */
  lemma LookupKeyOfBlank(nfc: string -> string, text: Cell)
    requires KeepsBlank(nfc)
    requires text.Null? || AllSpace(text.s)
    ensures LookupKey(nfc, text) == ""
  {
    if text.Text? && text.s != "" {
      assert AllSpace(nfc(text.s));
      KeepKeyCharsOfBlank(nfc(text.s));
    }
  }
}
