/**
 Printing a code and reading back whatever a person types or a scanner sends.

 `Respells` says, character against character, that a text is one way of writing a code:
 separators anywhere, either case, the look-alikes of the format after the prefix and a
 zero for O inside it. The parser is proved to accept exactly the respellings of valid
 codes, once the URL around a scanned code is gone.
 */
module Parsing {
  import opened Prelude
  import opened Codes
  import Luhn

  type Ascii = text: string | IsAscii(text)

  // ------------------------------------------------------------ characters

  function Upper(c: char): char {
    if IsLower(c) then (c as int - 32) as char else c
  }

  function Lower(c: char): char {
    if 'A' <= c <= 'Z' then (c as int + 32) as char else c
  }

  /** What `str.strip` removes from the ends of ASCII text. */
  predicate IsSpace(c: char) { 9 <= c as int <= 13 || 28 <= c as int <= 32 }

  /** The ASCII characters `_strip_separators` drops. */
  predicate IsSeparator(c: char) { c in " -\t\r\n_." }

  function UpperAll(text: string): string { seq(|text|, i requires 0 <= i < |text| => Upper(text[i])) }

  function LowerAll(text: string): string { seq(|text|, i requires 0 <= i < |text| => Lower(text[i])) }

  function StripSeparators(text: string): string {
    if text == [] then []
    else
      var c := text[|text| - 1];
      StripSeparators(text[..|text| - 1]) + if IsSeparator(c) then [] else [c]
  }

  /** `_strip_separators`. */
  method ComputeStripped(text: string) returns (kept: string)
    ensures kept == StripSeparators(text)
  {
    kept := [];
    for i := 0 to |text|
      invariant kept == StripSeparators(text[..i])
    {
      assert text[..i + 1][..i] == text[..i];
      if !IsSeparator(text[i]) { kept := kept + [text[i]]; }
    }
    assert text[..|text|] == text;
  }

  /** `normalize_input` on ASCII text, where the Unicode folding changes nothing. */
  function NormalizeInput(raw: string): string { UpperAll(StripSeparators(raw)) }

  function LStrip(text: string): string {
    if text != [] && IsSpace(text[0]) then LStrip(text[1..]) else text
  }

  function RStrip(text: string): string {
    if text != [] && IsSpace(text[|text| - 1]) then RStrip(text[..|text| - 1]) else text
  }

  function Strip(text: string): string { RStrip(LStrip(text)) }

  /** `text.rsplit(c, 1)[1]` of a text that holds `c`. */
  function AfterLast(text: string, c: char): string {
    if text == [] || text[|text| - 1] == c then []
    else AfterLast(text[..|text| - 1], c) + [text[|text| - 1]]
  }

  predicate SchemeAt(text: string, i: int) {
    0 <= i && i + 3 <= |text| && text[i] == ':' && text[i + 1] == '/' && text[i + 2] == '/'
  }

  /** `"://" in text`. */
  predicate HasScheme(text: string) {
    exists i | 0 <= i < |text| :: SchemeAt(text, i)
  }

  function StripQrWrapper(raw: string): string {
    var text := Strip(raw);
    if '#' in text then AfterLast(text, '#')
    else if HasScheme(text) then AfterLast(text, '/')
    else text
  }

  // ----------------------------------------------------------------- parser

  datatype ParsedCode = ParsedCode(city: City, canonical: string, format: string)
  datatype Problem = Malformed | Mistyped

  function CityByPrefix(prefix: string): (r: Option<City>)
    ensures match r
            case Some(city) => Prefix(city) == prefix
            case None => forall city :: Prefix(city) != prefix
  {
    if prefix == "PR" then Some(Paris)
    else if prefix == "BE" then Some(Berlin)
    else if prefix == "PA" then Some(Pattaya)
    else if prefix == "ME" then Some(Mexico)
    else if prefix == "MA" then Some(Madrid)
    else if prefix == "TO" then Some(Tokyo)
    else if prefix == "MO" then Some(Moscow)
    else None
  }

  /** `replace("0", "O")`. */
  function LettersOnly(text: string): string {
    seq(|text|, i requires 0 <= i < |text| => if text[i] == '0' then 'O' else text[i])
  }

  function Unalias(f: CodeFormat, text: string): string {
    seq(|text|, i requires 0 <= i < |text| => if text[i] in f.aliases then f.aliases[text[i]] else text[i])
  }

  /** The part of `parse_code` after the format is known. */
  function ParseAs(f: CodeFormat, text: string): Result<ParsedCode, Problem>
    requires WellFormed(f) && |text| == f.Length()
  {
    var prefix, tail := LettersOnly(text[..PREFIX_LENGTH]), Unalias(f, text[PREFIX_LENGTH..]);
    match CityByPrefix(prefix)
    case None => Err(Malformed)
    case Some(city) =>
      if !InAlphabet(f, tail) then Err(Malformed)
      else if !CheckIsValid(f, city, tail) then Err(Mistyped)
      else Ok(ParsedCode(city, prefix + tail, f.id))
  }

  /** `parse_code` with the formats in the registry. */
  function ParseCode(formats: seq<CodeFormat>, raw: Ascii): Result<ParsedCode, Problem>
    requires Distinct(formats)
  {
    var text := NormalizeInput(StripQrWrapper(raw));
    Found(formats, |text|, "");
    match FormatOfLength(formats, |text|)
    case None => Err(Malformed)
    case Some(f) => ParseAs(f, text)
  }

  // ------------------------------------------------------ what parsing means

  /** `typed` may stand for the character `meant` at position `k` of a code. */
  predicate Reads(f: CodeFormat, k: nat, typed: char, meant: char) {
    || Upper(typed) == meant
    || (k < PREFIX_LENGTH && typed == '0' && meant == 'O')
    || (k >= PREFIX_LENGTH && Upper(typed) in f.aliases && f.aliases[Upper(typed)] == meant)
  }

  /** `text`, separators aside, spells `code` one character at a time. */
  predicate Respells(f: CodeFormat, text: string, code: string) {
    if text == [] then code == []
    else
      var n, k := |text| - 1, |code| - 1;
      if IsSeparator(text[n]) then Respells(f, text[..n], code)
      else code != [] && Reads(f, k, text[n], code[k]) && Respells(f, text[..n], code[..k])
  }

  /** The right length, a city's prefix and characters of the alphabet. */
  predicate HasShape(f: CodeFormat, city: City, code: string) {
    |code| == f.Length() && PREFIX_LENGTH <= |code| && code[..PREFIX_LENGTH] == Prefix(city) && InAlphabet(f, code[PREFIX_LENGTH..])
  }

  /** A code of this format and city that could have been printed. */
  predicate IsCode(f: CodeFormat, city: City, code: string) {
    WellFormed(f) && HasShape(f, city, code) && CheckIsValid(f, city, code[PREFIX_LENGTH..])
  }

  /** `t`, already normalized, reads as `code` in each place. */
  ghost predicate Aligned(f: CodeFormat, t: string, code: string) {
    |t| == |code| && forall k | 0 <= k < |t| :: Reads(f, k, t[k], code[k])
  }

  lemma {:induction false} RespellsIsAligned(f: CodeFormat, text: string, code: string)
    ensures Respells(f, text, code) <==> Aligned(f, NormalizeInput(text), code)
  {
    if text != [] {
      var n, k := |text| - 1, |code| - 1;
      var s, t := NormalizeInput(text[..n]), NormalizeInput(text);
      if IsSeparator(text[n]) {
        assert t == s;
        RespellsIsAligned(f, text[..n], code);
      } else {
        assert t == s + [Upper(text[n])];
        if code != [] {
          RespellsIsAligned(f, text[..n], code[..k]);
          AlignedSnoc(f, s, Upper(text[n]), code);
          assert Upper(Upper(text[n])) == Upper(text[n]);
        }
      }
    }
  }

  lemma AlignedSnoc(f: CodeFormat, t: string, c: char, code: string)
    requires code != []
    ensures Aligned(f, t + [c], code)
            <==> Aligned(f, t, code[..|code| - 1]) && Reads(f, |code| - 1, c, code[|code| - 1])
  {
    var k := |code| - 1;
    if Aligned(f, t + [c], code) {
      assert (t + [c])[k] == c;
      forall j | 0 <= j < |t| ensures Reads(f, j, t[j], code[..k][j]) {
        assert Reads(f, j, (t + [c])[j], code[j]);
      }
    }
    if Aligned(f, t, code[..k]) && Reads(f, k, c, code[k]) {
      forall j | 0 <= j < |t + [c]| ensures Reads(f, j, (t + [c])[j], code[j]) {
        if j < |t| { assert Reads(f, j, t[j], code[..k][j]); }
      }
    }
  }

  ghost predicate AllUpper(t: string) { forall k | 0 <= k < |t| :: !IsLower(t[k]) }

  /** The only code of the right shape that normalized text can stand for is the one the parser builds. */
  lemma AlignmentIsUnique(f: CodeFormat, t: string, city: City, code: string)
    requires WellFormed(f) && |t| == f.Length() && AllUpper(t) && HasShape(f, city, code)
    ensures Aligned(f, t, code) <==>
            LettersOnly(t[..PREFIX_LENGTH]) == Prefix(city) && Unalias(f, t[PREFIX_LENGTH..]) == code[PREFIX_LENGTH..]
  {
    var prefix, tail := LettersOnly(t[..PREFIX_LENGTH]), Unalias(f, t[PREFIX_LENGTH..]);
    if Aligned(f, t, code) {
      forall k | 0 <= k < PREFIX_LENGTH ensures prefix[k] == Prefix(city)[k] {
        assert Reads(f, k, t[k], code[k]) && code[k] == code[..PREFIX_LENGTH][k];
      }
      forall k | 0 <= k < |tail| ensures tail[k] == code[PREFIX_LENGTH..][k] {
        assert Reads(f, k + PREFIX_LENGTH, t[k + PREFIX_LENGTH], code[k + PREFIX_LENGTH]);
        assert code[PREFIX_LENGTH..][k] in f.alphabet;
      }
      assert prefix == Prefix(city) && tail == code[PREFIX_LENGTH..];
    }
    if prefix == Prefix(city) && tail == code[PREFIX_LENGTH..] {
      forall k | 0 <= k < |t| ensures Reads(f, k, t[k], code[k]) {
        if k < PREFIX_LENGTH {
          assert code[k] == code[..PREFIX_LENGTH][k] == prefix[k];
        } else {
          assert code[k] == code[PREFIX_LENGTH..][k - PREFIX_LENGTH] == tail[k - PREFIX_LENGTH];
        }
      }
    }
  }

  /** What `raw` carries is a way of writing a code of this shape. */
  ghost predicate Spells(formats: seq<CodeFormat>, raw: string, f: CodeFormat, city: City, code: string) {
    f in formats && HasShape(f, city, code) && Respells(f, StripQrWrapper(raw), code)
  }

  /** The parser's result on a text that spells something of a registered shape. */
  lemma ParseOfSpelling(formats: seq<CodeFormat>, raw: Ascii, f: CodeFormat, city: City, code: string)
    requires Distinct(formats) && Spells(formats, raw, f, city, code)
    ensures ParseCode(formats, raw) == if IsCode(f, city, code) then Ok(ParsedCode(city, code, f.id)) else Err(Mistyped)
  {
    var text := StripQrWrapper(raw);
    var t := NormalizeInput(text);
    RespellsIsAligned(f, text, code);
    LengthDecides(formats, f);
    AlignmentIsUnique(f, t, city, code);
    assert code == code[..PREFIX_LENGTH] + code[PREFIX_LENGTH..];
    PrefixesDiffer(city, LettersOnly(t[..PREFIX_LENGTH]));
  }

  lemma PrefixesDiffer(city: City, prefix: string)
    requires prefix == Prefix(city)
    ensures CityByPrefix(prefix) == Some(city)
  {
    var found := CityByPrefix(prefix);
    assert found.Some?;
    var other := found.value;
    assert Prefix(other)[0] == Prefix(city)[0] && Prefix(other)[1] == Prefix(city)[1];
  }

  /** When the parser gets as far as the check, what it read has the shape of a code. */
  lemma ParseFindsSpelling(formats: seq<CodeFormat>, raw: Ascii) returns (f: CodeFormat, city: City, code: string)
    requires Distinct(formats) && ParseCode(formats, raw) != Err(Malformed)
    ensures Spells(formats, raw, f, city, code)
  {
    var text := StripQrWrapper(raw);
    var t := NormalizeInput(text);
    Found(formats, |t|, "");
    f := FormatOfLength(formats, |t|).value;
    var prefix, tail := LettersOnly(t[..PREFIX_LENGTH]), Unalias(f, t[PREFIX_LENGTH..]);
    city, code := CityByPrefix(prefix).value, prefix + tail;
    assert code[..PREFIX_LENGTH] == prefix && code[PREFIX_LENGTH..] == tail;
    AlignmentIsUnique(f, t, city, code);
    RespellsIsAligned(f, text, code);
  }

  /** Parsing succeeds with exactly the valid code that the text spells. */
  lemma ParseMeansRespelling(formats: seq<CodeFormat>, raw: Ascii, p: ParsedCode)
    requires Distinct(formats)
    ensures ParseCode(formats, raw) == Ok(p) <==>
            exists f :: Spells(formats, raw, f, p.city, p.canonical) && IsCode(f, p.city, p.canonical) && f.id == p.format
  {
    if ParseCode(formats, raw) == Ok(p) {
      var f, city, code := ParseFindsSpelling(formats, raw);
      ParseOfSpelling(formats, raw, f, city, code);
      assert Spells(formats, raw, f, p.city, p.canonical) && IsCode(f, p.city, p.canonical) && f.id == p.format;
    }
    if f :| Spells(formats, raw, f, p.city, p.canonical) && IsCode(f, p.city, p.canonical) && f.id == p.format {
      ParseOfSpelling(formats, raw, f, p.city, p.canonical);
    }
  }

  /** `MISTYPED` says exactly that the shape is right and the check character is not. */
  lemma MistypedMeansWrongCheck(formats: seq<CodeFormat>, raw: Ascii)
    requires Distinct(formats)
    ensures ParseCode(formats, raw) == Err(Mistyped) <==>
            exists f, city, code :: Spells(formats, raw, f, city, code) && !IsCode(f, city, code)
  {
    if ParseCode(formats, raw) == Err(Mistyped) {
      var f, city, code := ParseFindsSpelling(formats, raw);
      ParseOfSpelling(formats, raw, f, city, code);
      assert Spells(formats, raw, f, city, code) && !IsCode(f, city, code);
    }
    if f, city, code :| Spells(formats, raw, f, city, code) && !IsCode(f, city, code) {
      ParseOfSpelling(formats, raw, f, city, code);
    }
  }
}
