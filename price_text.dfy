/** Normalisation of the price element's text: `strip()`, the chain of
    `replace` calls that drops currency symbols and thousands separators, and
    the filter that keeps only digits and dots. */
module PriceText {

  /** The characters Python's `str.strip()` removes when called without
      arguments (those for which `str.isspace()` holds). */
  predicate IsSpace(c: char) {
    || ('\t' <= c <= '\r')
    || ('\U{001C}' <= c <= '\U{001F}')
    || c == ' '
    || c == '\U{0085}'
    || c == '\U{00A0}'
    || c == '\U{1680}'
    || ('\U{2000}' <= c <= '\U{200A}')
    || c == '\U{2028}'
    || c == '\U{2029}'
    || c == '\U{202F}'
    || c == '\U{205F}'
    || c == '\U{3000}'
  }

  /** `str.isdigit()`, restricted to the ASCII digits. */
  predicate IsDigit(c: char) {
    '0' <= c <= '9'
  }

  /** The characters the filter keeps: a digit or the dot. */
  predicate IsPriceChar(c: char) {
    IsDigit(c) || c == '.'
  }

  predicate IsPriceText(s: string) {
    forall i :: 0 <= i < |s| ==> IsPriceChar(s[i])
  }

  predicate AllSpace(s: string) {
    forall i :: 0 <= i < |s| ==> IsSpace(s[i])
  }

  lemma AllSpaceConcat(a: string, b: string)
    ensures AllSpace(a + b) <==> AllSpace(a) && AllSpace(b)
  {
    if AllSpace(a + b) {
      assert forall i :: 0 <= i < |a| ==> a[i] == (a + b)[i];
      assert forall i :: 0 <= i < |b| ==> b[i] == (a + b)[|a| + i];
    }
  }

  /** Leading whitespace removed. */
  function TrimStart(s: string): (r: string)
    ensures |r| <= |s| && r == s[|s| - |r|..]
    ensures AllSpace(s[..|s| - |r|])
    ensures r == [] || !IsSpace(r[0])
  {
    if s != [] && IsSpace(s[0]) then
      var r := TrimStart(s[1..]);
      TrimStartStep(s, r);
      r
    else s
  }

  /** Trailing whitespace removed. */
  function TrimEnd(s: string): (r: string)
    ensures |r| <= |s| && r == s[..|r|]
    ensures AllSpace(s[|r|..])
    ensures r == [] || !IsSpace(r[|r| - 1])
  {
    if s != [] && IsSpace(s[|s| - 1]) then
      var r := TrimEnd(s[..|s| - 1]);
      TrimEndStep(s, r);
      r
    else s
  }

  lemma TrimStartStep(s: string, r: string)
    requires s != [] && IsSpace(s[0])
    requires |r| <= |s| - 1 && r == s[1..][|s| - 1 - |r|..] && AllSpace(s[1..][..|s| - 1 - |r|])
    ensures r == s[|s| - |r|..] && AllSpace(s[..|s| - |r|])
  {
    assert s[..|s| - |r|] == [s[0]] + s[1..][..|s| - 1 - |r|];
    AllSpaceConcat([s[0]], s[1..][..|s| - 1 - |r|]);
  }

  lemma TrimEndStep(s: string, r: string)
    requires s != [] && IsSpace(s[|s| - 1])
    requires |r| <= |s| - 1 && r == s[..|s| - 1][..|r|] && AllSpace(s[..|s| - 1][|r|..])
    ensures r == s[..|r|] && AllSpace(s[|r|..])
  {
    assert s[|r|..] == s[..|s| - 1][|r|..] + [s[|s| - 1]];
    AllSpaceConcat(s[..|s| - 1][|r|..], [s[|s| - 1]]);
  }

  /** `str.strip()`: the text with whitespace removed at both ends and nowhere else. */
  function Strip(s: string): (r: string)
    ensures r == [] || (!IsSpace(r[0]) && !IsSpace(r[|r| - 1]))
    ensures exists lead, trail :: AllSpace(lead) && AllSpace(trail) && s == lead + r + trail
  {
    var t := TrimStart(s);
    var r := TrimEnd(t);
    StripParts(s, t, r);
    r
  }

  lemma StripParts(s: string, t: string, r: string)
    requires |t| <= |s| && t == s[|s| - |t|..] && AllSpace(s[..|s| - |t|])
    requires t == [] || !IsSpace(t[0])
    requires |r| <= |t| && r == t[..|r|] && AllSpace(t[|r|..])
    requires r == [] || !IsSpace(r[|r| - 1])
    ensures r == [] || (!IsSpace(r[0]) && !IsSpace(r[|r| - 1]))
    ensures exists lead, trail :: AllSpace(lead) && AllSpace(trail) && s == lead + r + trail
  {
    var lead, trail := s[..|s| - |t|], t[|r|..];
    assert s == lead + t;
    assert t == r + trail;
    assert s == lead + r + trail;
    assert r != [] ==> r[0] == t[0];
  }

  /** `s.replace(c, "")` for a one-character pattern: every occurrence of `c` dropped. */
  function RemoveAll(s: string, c: char): (r: string)
    ensures c !in r && |r| <= |s|
  {
    if s == [] then []
    else if s[0] == c then RemoveAll(s[1..], c)
    else [s[0]] + RemoveAll(s[1..], c)
  }

  /** Removing `c` keeps every other character, as often as it occurred. */
  lemma {:induction false} RemoveAllCounts(s: string, c: char)
    ensures forall x :: multiset(RemoveAll(s, c))[x] == if x == c then 0 else multiset(s)[x]
  {
    if s != [] {
      assert s == [s[0]] + s[1..];
      RemoveAllCounts(s[1..], c);
    }
  }

  /** The characters the replace chain deletes: dollar, pound, euro and the comma. */
  const CurrencyMarks: set<char> := {'$', '\U{00A3}', '\U{20AC}', ','}

  /** The replace chain: `$`, `£`, `€` and `,` removed, every other character kept. */
  function DropCurrencyMarks(s: string): (r: string)
    ensures forall x :: multiset(r)[x] == if x in CurrencyMarks then 0 else multiset(s)[x]
  {
    var s1 := RemoveAll(s, '$');
    var s2 := RemoveAll(s1, '\U{00A3}');
    var s3 := RemoveAll(s2, '\U{20AC}');
    RemoveAllCounts(s, '$');
    RemoveAllCounts(s1, '\U{00A3}');
    RemoveAllCounts(s2, '\U{20AC}');
    RemoveAllCounts(s3, ',');
    RemoveAll(s3, ',')
  }

  /** The replace chain keeps the characters it keeps in order: it commutes
      with concatenation. */
  lemma DropCurrencyMarksConcat(a: string, b: string)
    ensures DropCurrencyMarks(a + b) == DropCurrencyMarks(a) + DropCurrencyMarks(b)
  {
    RemoveAllConcat(a, b, '$');
    RemoveAllConcat(RemoveAll(a, '$'), RemoveAll(b, '$'), '\U{00A3}');
    RemoveAllConcat(RemoveAll(RemoveAll(a, '$'), '\U{00A3}'), RemoveAll(RemoveAll(b, '$'), '\U{00A3}'), '\U{20AC}');
    RemoveAllConcat(RemoveAll(RemoveAll(RemoveAll(a, '$'), '\U{00A3}'), '\U{20AC}'),
                    RemoveAll(RemoveAll(RemoveAll(b, '$'), '\U{00A3}'), '\U{20AC}'), ',');
  }

  /** On one character the replace chain deletes a currency mark and keeps anything else. */
  lemma DropCurrencyMarksChar(c: char)
    ensures DropCurrencyMarks([c]) == if c in CurrencyMarks then [] else [c]
  {
    assert [c][1..] == [];
  }

  /** Removal distributes over concatenation. */
  lemma {:induction false} RemoveAllConcat(a: string, b: string, c: char)
    ensures RemoveAll(a + b, c) == RemoveAll(a, c) + RemoveAll(b, c)
  {
    if a == [] {
      assert a + b == b;
    } else {
      assert (a + b)[0] == a[0];
      assert (a + b)[1..] == a[1..] + b;
      RemoveAllConcat(a[1..], b, c);
    }
  }

  /** `"".join([c for c in s if c.isdigit() or c == '.'])`. */
  function KeepPriceChars(s: string): (r: string)
    ensures IsPriceText(r) && |r| <= |s|
  {
    if s == [] then []
    else if IsPriceChar(s[0]) then [s[0]] + KeepPriceChars(s[1..])
    else KeepPriceChars(s[1..])
  }

  /** The filter keeps every digit and dot, as often as it occurred, and nothing else. */
  lemma {:induction false} KeepCounts(s: string)
    ensures forall x :: multiset(KeepPriceChars(s))[x] == if IsPriceChar(x) then multiset(s)[x] else 0
  {
    if s != [] {
      assert s == [s[0]] + s[1..];
      KeepCounts(s[1..]);
    }
  }

  /** Lines 62 and 66: the replace chain followed by the filter. */
  function Clean(raw: string): (r: string)
    ensures IsPriceText(r)
  {
    KeepPriceChars(DropCurrencyMarks(raw))
  }

  /** The filter keeps each kept character where it was: it commutes with concatenation. */
  lemma {:induction false} KeepConcat(a: string, b: string)
    ensures KeepPriceChars(a + b) == KeepPriceChars(a) + KeepPriceChars(b)
  {
    if a == [] {
      assert a + b == b;
    } else {
      assert (a + b)[0] == a[0];
      assert (a + b)[1..] == a[1..] + b;
      KeepConcat(a[1..], b);
    }
  }

  /** A text made only of digits and dots passes the filter unchanged. */
  lemma {:induction false} KeepPriceText(s: string)
    requires IsPriceText(s)
    ensures KeepPriceChars(s) == s
  {
    if s != [] {
      KeepPriceText(s[1..]);
    }
  }

  /** Whitespace never passes the filter. */
  lemma {:induction false} KeepSpace(s: string)
    requires AllSpace(s)
    ensures KeepPriceChars(s) == []
  {
    if s != [] {
      KeepSpace(s[1..]);
    }
  }

  /** Removing a character the filter would drop anyway changes nothing after the filter. */
  lemma {:induction false} KeepAfterRemove(s: string, c: char)
    requires !IsPriceChar(c)
    ensures KeepPriceChars(RemoveAll(s, c)) == KeepPriceChars(s)
  {
    if s != [] {
      KeepAfterRemove(s[1..], c);
      assert KeepPriceChars(s) == KeepPriceChars([s[0]]) + KeepPriceChars(s[1..]) by {
        assert s == [s[0]] + s[1..];
        KeepConcat([s[0]], s[1..]);
      }
      if s[0] == c {
        assert RemoveAll(s, c) == RemoveAll(s[1..], c);
        assert KeepPriceChars([s[0]]) == [];
      } else {
        assert RemoveAll(s, c) == [s[0]] + RemoveAll(s[1..], c);
        KeepConcat([s[0]], RemoveAll(s[1..], c));
      }
    }
  }

  /** The replace chain is subsumed by the filter: cleaning is filtering the raw text. */
  lemma CleanIsKeep(raw: string)
    ensures Clean(raw) == KeepPriceChars(raw)
  {
    var s1 := RemoveAll(raw, '$');
    var s2 := RemoveAll(s1, '\U{00A3}');
    var s3 := RemoveAll(s2, '\U{20AC}');
    KeepAfterRemove(s3, ',');
    KeepAfterRemove(s2, '\U{20AC}');
    KeepAfterRemove(s1, '\U{00A3}');
    KeepAfterRemove(raw, '$');
  }

  /** Stripping first makes no difference either: the cleaned text is every digit
      and dot of the element's text, in order, and nothing else. */
  lemma CleanStripped(text: string)
    ensures Clean(Strip(text)) == KeepPriceChars(text)
  {
    var r := Strip(text);
    var lead, trail :| AllSpace(lead) && AllSpace(trail) && text == lead + r + trail;
    CleanIsKeep(r);
    KeepConcat(lead + r, trail);
    KeepConcat(lead, r);
    KeepSpace(lead);
    KeepSpace(trail);
  }

  /** Cleaning an already cleaned text changes nothing. */
  lemma CleanIdempotent(raw: string)
    ensures Clean(Clean(raw)) == Clean(raw)
  {
    CleanIsKeep(Clean(raw));
    KeepPriceText(Clean(raw));
  }
}
