/**
  `blur_address`: the address shown to a visitor who has not paid. The
  street number and name are masked; what stays visible is the street
  suffix (the first suffix of a fixed list found as a whole word, ignoring
  case, in the text it has in the address), then either the location after
  the first comma or, without a comma, a trailing five-digit zip.

  Regular expressions are modelled for what these patterns need: `\b` and
  `\w` over ASCII letters, digits and `_`; `\d` over ASCII digits; case
  folding over ASCII letters; `$` at the end of the text or just before a
  final newline.
 */
module Blur {
  import opened Common

  /** The street suffixes, in the order they are tried. */
  const Suffixes: seq<string> := [
    "Street", "St", "Avenue", "Ave", "Road", "Rd", "Drive", "Dr", "Lane", "Ln",
    "Boulevard", "Blvd", "Parkway", "Pkwy", "Circle", "Cir", "Court", "Ct",
    "Plaza", "Square", "Way", "Place", "Pl", "Pike", "Trail", "Terrace"]

  const Open: string := "<span class=\"blur\">["
  const Masked: string := Open + "\U{25CF}\U{25CF}\U{25CF}\U{25CF}]</span>"
  const Locked: string := Open + "Address Locked]</span>"

  // ------------------------------------------------------ characters

  predicate IsWordChar(c: char)
  {
    'a' <= c <= 'z' || 'A' <= c <= 'Z' || '0' <= c <= '9' || c == '_'
  }

  predicate IsDigit(c: char)
  {
    '0' <= c <= '9'
  }

  /** Python's `str.isspace`, the set `str.strip()` removes. */
  predicate IsSpace(c: char)
  {
    var n := c as int;
    || (9 <= n <= 13) || (28 <= n <= 32) || n == 0x85 || n == 0xA0 || n == 0x1680
    || (0x2000 <= n <= 0x200A) || n == 0x2028 || n == 0x2029 || n == 0x202F || n == 0x205F || n == 0x3000
  }

  function Fold(c: char): char
  {
    if 'A' <= c <= 'Z' then (c as int + 32) as char else c
  }

  predicate SameFolded(a: string, b: string)
  {
    |a| == |b| && forall i :: 0 <= i < |a| ==> Fold(a[i]) == Fold(b[i])
  }

  // -------------------------------------------------- whole-word search

  /** `\b` at position `k`: exactly one side of it is a word character. */
  predicate Boundary(s: string, k: int)
    requires 0 <= k <= |s|
  {
    (k > 0 && IsWordChar(s[k - 1])) != (k < |s| && IsWordChar(s[k]))
  }

  /** `\bw\b`, ignoring case, matches the text at position `i`. */
  predicate WordAt(s: string, i: int, w: string)
  {
    0 <= i && i + |w| <= |s| && Boundary(s, i) && SameFolded(s[i..i + |w|], w) && Boundary(s, i + |w|)
  }

  predicate Occurs(s: string, w: string)
  {
    exists i :: 0 <= i <= |s| && WordAt(s, i, w)
  }

  /** `re.search`: the leftmost position at or after `i` where `w` matches as a word. */
  function FindWord(s: string, w: string, i: nat): (r: Option<nat>)
    requires i <= |s|
    ensures r.Some? ==> i <= r.value && WordAt(s, r.value, w)
    ensures r.Some? ==> forall j :: i <= j < r.value ==> !WordAt(s, j, w)
    ensures r.None? ==> forall j :: i <= j <= |s| ==> !WordAt(s, j, w)
    decreases |s| - i
  {
    if i + |w| > |s| then None
    else if WordAt(s, i, w) then Some(i)
    else if i == |s| then None
    else FindWord(s, w, i + 1)
  }

  /** Which suffix was found, and where. */
  datatype Hit = Hit(which: nat, at: nat)

  /** The suffix loop over `ws` from list position `k` on: the first word found wins. */
  function SearchFrom(s: string, ws: seq<string>, k: nat): (h: Option<Hit>)
    requires k <= |ws|
    ensures h.Some? ==>
              && k <= h.value.which < |ws|
              && WordAt(s, h.value.at, ws[h.value.which])
              && (forall p :: 0 <= p < h.value.at ==> !WordAt(s, p, ws[h.value.which]))
              && (forall j :: k <= j < h.value.which ==> !Occurs(s, ws[j]))
    ensures h.None? ==> forall j :: k <= j < |ws| ==> !Occurs(s, ws[j])
    decreases |ws| - k
  {
    if k == |ws| then None
    else
      match FindWord(s, ws[k], 0)
      case Some(i) => Some(Hit(k, i))
      case None => NotFoundNowhere(s, ws[k]); SearchFrom(s, ws, k + 1)
  }

  lemma {:induction false} NotFoundNowhere(s: string, w: string)
    requires FindWord(s, w, 0).None?
    ensures !Occurs(s, w)
  {
  }

  function FindSuffix(s: string): (h: Option<Hit>)
    ensures h.Some? ==>
              && h.value.which < |Suffixes|
              && WordAt(s, h.value.at, Suffixes[h.value.which])
              && (forall p :: 0 <= p < h.value.at ==> !WordAt(s, p, Suffixes[h.value.which]))
              && (forall j :: 0 <= j < h.value.which ==> !Occurs(s, Suffixes[j]))
    ensures h.None? ==> forall j :: 0 <= j < |Suffixes| ==> !Occurs(s, Suffixes[j])
  {
    SearchFrom(s, Suffixes, 0)
  }

  /** `suffix_match.group()`: the suffix as written in the address. */
  function Matched(s: string, h: Hit): (m: string)
    requires h.which < |Suffixes| && WordAt(s, h.at, Suffixes[h.which])
    ensures SameFolded(m, Suffixes[h.which])
    ensures m != []
  {
    s[h.at..h.at + |Suffixes[h.which]|]
  }

  // ------------------------------------------------ comma and location

  function IndexOf(s: string, c: char): (r: Option<nat>)
    ensures r.Some? ==> r.value < |s| && s[r.value] == c && c !in s[..r.value]
    ensures r.None? ==> c !in s
  {
    if s == [] then None
    else if s[0] == c then Some(0)
    else match IndexOf(s[1..], c)
      case None => None
      case Some(k) => assert s[..k + 1] == [s[0]] + s[1..][..k]; Some(k + 1)
  }

  /** The bounds `str.strip()` keeps: leading and trailing whitespace removed. */
  function StripRange(s: string): (r: (nat, nat))
    ensures r.0 <= r.1 <= |s|
    ensures forall k :: 0 <= k < r.0 ==> IsSpace(s[k])
    ensures forall k :: r.1 <= k < |s| ==> IsSpace(s[k])
    ensures r.0 < r.1 ==> !IsSpace(s[r.0]) && !IsSpace(s[r.1 - 1])
  {
    var lo := SkipLeading(s, 0);
    (lo, SkipTrailing(s, |s|, lo))
  }

  function SkipLeading(s: string, i: nat): (lo: nat)
    requires i <= |s|
    ensures i <= lo <= |s|
    ensures forall k :: i <= k < lo ==> IsSpace(s[k])
    ensures lo < |s| ==> !IsSpace(s[lo])
    decreases |s| - i
  {
    if i == |s| || !IsSpace(s[i]) then i else SkipLeading(s, i + 1)
  }

  function SkipTrailing(s: string, j: nat, lo: nat): (hi: nat)
    requires lo <= j <= |s|
    requires lo < |s| ==> !IsSpace(s[lo])
    ensures lo <= hi <= j
    ensures forall k :: hi <= k < j ==> IsSpace(s[k])
    ensures lo < hi ==> !IsSpace(s[hi - 1])
    decreases j
  {
    if j == lo then lo
    else if !IsSpace(s[j - 1]) then j
    else SkipTrailing(s, j - 1, lo)
  }

  /** `strip()`: the text without its leading and trailing whitespace. */
  function Strip(s: string): (r: string)
    ensures |r| <= |s|
    ensures r != [] ==> !IsSpace(r[0]) && !IsSpace(r[|r| - 1])
    ensures (forall k :: 0 <= k < |s| ==> IsSpace(s[k])) ==> r == []
    ensures s != [] && !IsSpace(s[0]) && !IsSpace(s[|s| - 1]) ==> r == s
  {
    s[StripRange(s).0..StripRange(s).1]
  }

  /** `address.split(',', 1)[1].strip()`. */
  function Location(a: string): (r: string)
    requires ',' in a
    ensures |r| < |a|
    ensures r != [] ==> !IsSpace(r[0]) && !IsSpace(r[|r| - 1])
  {
    var k := IndexOf(a, ',').value;
    Strip(a[k + 1..])
  }

  /** The location is the stripped text after the first comma, whatever later commas follow. */
  lemma {:induction false} LocationAfterFirstComma(a: string, pre: string, post: string)
    requires a == pre + "," + post && ',' !in pre
    ensures Location(a) == Strip(post)
  {
    assert a[|pre|] == ',';
    var k := IndexOf(a, ',').value;
    if k != |pre| {
      assert false;
    }
    assert a[k + 1..] == post;
  }

  // -------------------------------------------------------------- zip

  /** `$`: the end of the text, or just before a newline that ends it. */
  predicate EndAnchor(s: string, k: int)
  {
    k == |s| || (0 <= k == |s| - 1 && s[k] == '\n')
  }

  /** `\b\d{5}\b$` matches at position `i`. */
  predicate ZipAt(s: string, i: int)
  {
    && 0 <= i && i + 5 <= |s|
    && Boundary(s, i) && (forall j :: i <= j < i + 5 ==> IsDigit(s[j])) && Boundary(s, i + 5)
    && EndAnchor(s, i + 5)
  }

  /** The `$` anchor leaves only two places a zip can match. */
  lemma {:induction false} ZipOnlyAtEnd(s: string)
    ensures forall i :: ZipAt(s, i) ==> i == |s| - 5 || i == |s| - 6
  {
  }

  lemma {:induction false} ZipDigits(s: string, i: int, z: string)
    requires ZipAt(s, i) && z == s[i..i + 5]
    ensures forall j :: 0 <= j < |z| ==> IsDigit(z[j])
  {
  }

  /** The zip code the search finds, if any. */
  function Zip(s: string): (z: Option<string>)
    ensures z.Some? ==> |z.value| == 5 && forall j :: 0 <= j < 5 ==> IsDigit(z.value[j])
    ensures z.Some? ==>
              || (ZipAt(s, |s| - 5) && z.value == s[|s| - 5..])
              || (ZipAt(s, |s| - 6) && z.value == s[|s| - 6..|s| - 1])
    ensures z.None? ==> forall i :: 0 <= i <= |s| ==> !ZipAt(s, i)
  {
    if |s| >= 5 && ZipAt(s, |s| - 5) then
      ZipDigits(s, |s| - 5, s[|s| - 5..]);
      Some(s[|s| - 5..])
    else if |s| >= 6 && ZipAt(s, |s| - 6) then
      ZipDigits(s, |s| - 6, s[|s| - 6..|s| - 1]);
      Some(s[|s| - 6..|s| - 1])
    else
      NoZip(s);
      None
  }

  lemma {:induction false} NoZip(s: string)
    requires !(|s| >= 5 && ZipAt(s, |s| - 5)) && !(|s| >= 6 && ZipAt(s, |s| - 6))
    ensures forall i :: 0 <= i <= |s| ==> !ZipAt(s, i)
  {
    ZipOnlyAtEnd(s);
  }

  // ------------------------------------------------------------ blur

  lemma {:induction false} MaskedPrefix()
    ensures forall x :: Open <= Masked + x
    ensures Open <= Locked
  {
    forall x
      ensures Open <= Masked + x
    {
      assert (Masked + x)[..|Open|] == Open;
    }
  }

  /** The suffix text `blur_address` shows, if a suffix was found. */
  function ShownSuffix(a: string): (m: Option<string>)
    ensures m.Some? == FindSuffix(a).Some?
    ensures m.Some? ==> m.value == Matched(a, FindSuffix(a).value)
  {
    match FindSuffix(a)
    case None => None
    case Some(h) => Some(Matched(a, h))
  }

  function BlurAddress(a: string): (r: string)
    ensures Open <= r
  {
    MaskedPrefix();
    var suffix := ShownSuffix(a);
    match IndexOf(a, ',')
    case Some(k) =>
      var location := Strip(a[k + 1..]);
      if suffix.Some? then Masked + " " + suffix.value + ", " + location
      else Masked + ", " + location
    case None =>
      var zip := Zip(a);
      if zip.Some? && suffix.Some? then Masked + " " + suffix.value + " " + zip.value
      else if suffix.Some? then Masked + " " + suffix.value
      else Locked
  }

  /** The suffix found is shown, as written in the address, right after the mask. */
  lemma {:induction false} BlurShowsSuffix(a: string)
    requires FindSuffix(a).Some?
    ensures var m := Matched(a, FindSuffix(a).value);
            var r := BlurAddress(a);
            |Masked| + 1 + |m| <= |r| && r[..|Masked| + 1 + |m|] == Masked + " " + m
  {
    var m := Matched(a, FindSuffix(a).value);
    var r := BlurAddress(a);
    var head := Masked + " " + m;
    var rest := if ',' in a then ", " + Location(a) else if Zip(a).Some? then " " + Zip(a).value else "";
    if ',' in a {
      BlurWithComma(a);
    } else {
      BlurWithoutComma(a);
    }
    assert r == head + rest;
    PrefixSlice(head, rest);
  }

  lemma {:induction false} PrefixSlice(x: string, y: string)
    ensures (x + y)[..|x|] == x
  {
  }

  /** With a comma, the output ends with the location; without a suffix it is just mask and location. */
  lemma {:induction false} BlurWithComma(a: string)
    requires ',' in a
    ensures |Location(a)| <= |BlurAddress(a)|
    ensures BlurAddress(a)[|BlurAddress(a)| - |Location(a)|..] == Location(a)
    ensures FindSuffix(a).None? ==> BlurAddress(a) == Masked + ", " + Location(a)
    ensures FindSuffix(a).Some? ==> BlurAddress(a) == Masked + " " + Matched(a, FindSuffix(a).value) + ", " + Location(a)
  {
  }

  /**
    Without a comma: no suffix gives the locked text, zip or not; with a
    suffix, the zip is appended exactly when the address ends in one.
   */
  lemma {:induction false} BlurWithoutComma(a: string)
    requires ',' !in a
    ensures FindSuffix(a).None? ==> BlurAddress(a) == Locked
    ensures FindSuffix(a).Some? ==>
              BlurAddress(a) == Masked + " " + Matched(a, FindSuffix(a).value) + (if Zip(a).Some? then " " + Zip(a).value else "")
  {
  }

  /**
    What is masked stays masked: two addresses whose suffix text and
    location (with a comma) or suffix text and zip (without one) agree
    blur identically, whatever their house numbers and street names.
   */
  lemma {:induction false} BlurShowsOnlySuffixAndTail(a: string, b: string)
    requires (',' in a) == (',' in b)
    requires FindSuffix(a).Some? == FindSuffix(b).Some?
    requires FindSuffix(a).Some? ==> Matched(a, FindSuffix(a).value) == Matched(b, FindSuffix(b).value)
    requires ',' in a ==> Location(a) == Location(b)
    requires ',' !in a ==> Zip(a) == Zip(b)
    ensures BlurAddress(a) == BlurAddress(b)
  {
    if ',' in a {
      BlurWithComma(a);
      BlurWithComma(b);
    } else {
      BlurWithoutComma(a);
      BlurWithoutComma(b);
    }
  }
}
