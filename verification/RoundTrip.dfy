/**
 Printed and scanned forms of a code read back as that code, in a registry whose
 alphabets are free of separators and URL punctuation, as both registered ones are.
 */
module RoundTrip {
  import opened Prelude
  import opened Codes
  import opened Parsing

  // --------------------------------------------------------------- printing

  function Min(a: int, b: int): int { if a < b then a else b }

  /** `text[from : from + size]`, which never fails. */
  function Slice(text: string, from: nat, size: nat): string {
    text[Min(from, |text|)..Min(from + size, |text|)]
  }

  function Join(parts: seq<string>): string {
    if parts == [] then []
    else if |parts| == 1 then parts[0]
    else Join(parts[..|parts| - 1]) + "-" + parts[|parts| - 1]
  }

  /** The groups after the prefix, each with its dash, from position `k` on. */
  function Groups(code: string, grouping: seq<int>, k: nat): string
    requires Positive(grouping)
  {
    if grouping == [] then [] else "-" + Slice(code, k, grouping[0]) + Groups(code, grouping[1..], k + grouping[0])
  }

  function FormatPrinted(code: string, f: CodeFormat): string
    requires Positive(f.grouping)
  {
    Slice(code, 0, PREFIX_LENGTH) + Groups(code, f.grouping, PREFIX_LENGTH)
  }

  lemma JoinSnoc(parts: seq<string>, part: string)
    requires parts != []
    ensures Join(parts + [part]) == Join(parts) + "-" + part
  {
    assert (parts + [part])[..|parts|] == parts;
  }

  /** Appending the next group to the parts leaves the groups after it to come. */
  lemma NextPart(parts: seq<string>, code: string, grouping: seq<int>, i: nat, k: nat)
    requires Positive(grouping) && i < |grouping| && parts != []
    ensures Join(parts + [Slice(code, k, grouping[i])]) + Groups(code, grouping[i + 1..], k + grouping[i])
            == Join(parts) + Groups(code, grouping[i..], k)
  {
    var part, rest := Slice(code, k, grouping[i]), Groups(code, grouping[i + 1..], k + grouping[i]);
    assert grouping[i..][1..] == grouping[i + 1..];
    JoinSnoc(parts, part);
    Regroup(Join(parts), "-", part, rest);
  }

  lemma Regroup(a: string, b: string, c: string, d: string)
    ensures a + b + c + d == a + (b + c + d)
  {
  }

  /** `format_printed`. */
  method ComputePrinted(code: string, f: CodeFormat) returns (printed: string)
    requires Positive(f.grouping)
    ensures printed == FormatPrinted(code, f)
  {
    var parts := [Slice(code, 0, PREFIX_LENGTH)];
    var position: nat := PREFIX_LENGTH;
    for i := 0 to |f.grouping|
      invariant parts != []
      invariant Join(parts) + Groups(code, f.grouping[i..], position) == FormatPrinted(code, f)
    {
      NextPart(parts, code, f.grouping, i, position);
      parts := parts + [Slice(code, position, f.grouping[i])];
      position := position + f.grouping[i];
    }
    assert Join(parts) + [] == Join(parts);
    printed := Join(parts);
  }

  function RStripSlash(text: string): string {
    if text != [] && text[|text| - 1] == '/' then RStripSlash(text[..|text| - 1]) else text
  }

  function QrUrl(base: string, code: string, f: CodeFormat): string
    requires Positive(f.grouping)
  {
    LowerAll(RStripSlash(base)) + "/b/" + FormatPrinted(code, f)
  }

  // ---------------------------------------------------------- clean formats

  /** No separator, no white space, and nothing a URL uses around a code. */
  predicate Plain(c: char) {
    !IsSeparator(c) && !IsSpace(c) && c != '#' && c != '/' && c != ':'
  }

  predicate Clean(f: CodeFormat) {
    && WellFormed(f)
    && (forall c | c in f.alphabet :: Plain(c))
    && (forall c | c in f.aliases :: Plain(c))
  }

  ghost predicate CleanRegistry(formats: seq<CodeFormat>) {
    Distinct(formats) && forall f | f in formats :: Clean(f)
  }

  lemma RegisteredAreClean()
    ensures CleanRegistry([V2_B10, CITY2_B9])
  {
    RegisteredFormats();
    Crockford();
    AlphanumericIsClean(V2_B10);
    AlphanumericIsClean(CITY2_B9);
  }

  lemma AlphanumericIsClean(f: CodeFormat)
    requires WellFormed(f) && |f.alphabet| == 32 && f.aliases == CROCKFORD_ALIASES
    requires forall i | 0 <= i < 32 :: f.alphabet[i] == CROCKFORD_BASE32[i]
    ensures Clean(f)
  {
    forall c | c in f.alphabet ensures Plain(c) {
      var i :| 0 <= i < 32 && f.alphabet[i] == c;
      CrockfordAt(i);
    }
  }

  lemma PrefixIsPlain(city: City, k: nat)
    requires k < PREFIX_LENGTH
    ensures 'A' <= Prefix(city)[k] <= 'Z'
  {
  }

  lemma CodeIsPlain(f: CodeFormat, city: City, code: string, k: nat)
    requires Clean(f) && HasShape(f, city, code) && k < |code|
    ensures Plain(code[k]) && !IsLower(code[k]) && code[k] as int < 128
  {
    if k < PREFIX_LENGTH {
      PrefixIsPlain(city, k);
      assert code[k] == code[..PREFIX_LENGTH][k];
    } else {
      assert code[k] == code[PREFIX_LENGTH..][k - PREFIX_LENGTH];
    }
  }

  /** What stands for a character of a code is a plain character. */
  lemma ReadsPlain(f: CodeFormat, city: City, code: string, k: nat, typed: char)
    requires Clean(f) && HasShape(f, city, code) && k < |code| && Reads(f, k, typed, code[k])
    ensures Plain(typed)
  {
    CodeIsPlain(f, city, code, k);
  }

  /** Every character of a respelling is a separator or plain. */
  lemma {:induction false} RespellingCharacters(f: CodeFormat, city: City, code: string, text: string, part: nat, i: nat)
    requires Clean(f) && HasShape(f, city, code) && part <= |code|
    requires Respells(f, text, code[..part]) && i < |text|
    ensures IsSeparator(text[i]) || Plain(text[i])
  {
    var n := |text| - 1;
    if IsSeparator(text[n]) {
      if i < n { RespellingCharacters(f, city, code, text[..n], part, i); }
    } else {
      if i == n { ReadsPlain(f, city, code, part - 1, text[n]); }
      else {
        assert code[..part][..part - 1] == code[..part - 1];
        RespellingCharacters(f, city, code, text[..n], part - 1, i);
      }
    }
  }

  lemma RespellingHasNoMarks(f: CodeFormat, city: City, code: string, text: string)
    requires Clean(f) && HasShape(f, city, code) && Respells(f, text, code)
    ensures '#' !in text && ':' !in text && '/' !in text
    ensures forall i | 0 <= i < |text| && IsSpace(text[i]) :: IsSeparator(text[i])
  {
    assert code[..|code|] == code;
    forall i | 0 <= i < |text|
      ensures text[i] != '#' && text[i] != ':' && text[i] != '/' && (IsSpace(text[i]) ==> IsSeparator(text[i]))
    {
      RespellingCharacters(f, city, code, text, |code|, i);
    }
  }

  // ---------------------------------------------------------------- stripping

  lemma {:induction false} SeparatorsAdd(a: string, b: string)
    ensures StripSeparators(a + b) == StripSeparators(a) + StripSeparators(b)
  {
    if b == [] {
      assert a + b == a;
    } else {
      assert (a + b)[..|a + b| - 1] == a + b[..|b| - 1];
      SeparatorsAdd(a, b[..|b| - 1]);
    }
  }

  lemma {:induction false} PlainTextKeeps(text: string)
    requires forall i | 0 <= i < |text| :: !IsSeparator(text[i])
    ensures StripSeparators(text) == text
  {
    if text != [] {
      PlainTextKeeps(text[..|text| - 1]);
      assert text == text[..|text| - 1] + [text[|text| - 1]];
    }
  }

  lemma {:induction false} OnlySeparators(text: string)
    requires forall i | 0 <= i < |text| :: IsSeparator(text[i])
    ensures StripSeparators(text) == []
  {
    if text != [] { OnlySeparators(text[..|text| - 1]); }
  }

  lemma {:induction false} LStripIsSuffix(text: string) returns (k: nat)
    ensures k <= |text| && LStrip(text) == text[k..] && (forall i | 0 <= i < k :: IsSpace(text[i])) && (k < |text| ==> !IsSpace(text[k]))
  {
    if text != [] && IsSpace(text[0]) {
      k := LStripIsSuffix(text[1..]);
      forall i | 0 <= i < k + 1 ensures IsSpace(text[i]) {
        if i > 0 { assert text[i] == text[1..][i - 1]; }
      }
      k := k + 1;
    } else {
      k := 0;
    }
  }

  lemma {:induction false} RStripIsPrefix(text: string) returns (k: nat)
    ensures k <= |text| && RStrip(text) == text[..k] && (forall i | k <= i < |text| :: IsSpace(text[i]))
  {
    if text != [] && IsSpace(text[|text| - 1]) {
      k := RStripIsPrefix(text[..|text| - 1]);
      forall i | k <= i < |text| ensures IsSpace(text[i]) {
        if i < |text| - 1 { assert text[i] == text[..|text| - 1][i]; }
      }
      assert text[..|text| - 1][..k] == text[..k];
    } else {
      k := |text|;
    }
  }

  lemma LStripKeepsSpelling(f: CodeFormat, text: string, code: string)
    requires forall i | 0 <= i < |text| && IsSpace(text[i]) :: IsSeparator(text[i])
    ensures Respells(f, LStrip(text), code) <==> Respells(f, text, code)
  {
    var k := LStripIsSuffix(text);
    DropSeparators(f, text[..k], text[k..], [], code);
    assert text == text[..k] + text[k..] + [];
  }

  lemma RStripKeepsSpelling(f: CodeFormat, text: string, code: string)
    requires forall i | 0 <= i < |text| && IsSpace(text[i]) :: IsSeparator(text[i])
    ensures Respells(f, RStrip(text), code) <==> Respells(f, text, code)
  {
    var k := RStripIsPrefix(text);
    DropSeparators(f, [], text[..k], text[k..], code);
    assert text == [] + text[..k] + text[k..];
  }

  /** Trimming white space that is all separators does not change what a text spells. */
  lemma StripKeepsSpelling(f: CodeFormat, text: string, code: string)
    requires forall i | 0 <= i < |text| && IsSpace(text[i]) :: IsSeparator(text[i])
    ensures Respells(f, Strip(text), code) <==> Respells(f, text, code)
  {
    var k := LStripIsSuffix(text);
    LStripKeepsSpelling(f, text, code);
    RStripKeepsSpelling(f, LStrip(text), code);
  }

  lemma DropSeparators(f: CodeFormat, a: string, text: string, b: string, code: string)
    requires (forall i | 0 <= i < |a| :: IsSeparator(a[i])) && (forall i | 0 <= i < |b| :: IsSeparator(b[i]))
    ensures Respells(f, a + text + b, code) <==> Respells(f, text, code)
  {
    SeparatorsAround(a, text, b);
    RespellsIsAligned(f, a + text + b, code);
    RespellsIsAligned(f, text, code);
  }

  lemma SeparatorsAround(a: string, text: string, b: string)
    requires (forall i | 0 <= i < |a| :: IsSeparator(a[i])) && (forall i | 0 <= i < |b| :: IsSeparator(b[i]))
    ensures StripSeparators(a + text + b) == StripSeparators(text)
  {
    OnlySeparators(a);
    OnlySeparators(b);
    SeparatorsAdd(a + text, b);
    SeparatorsAdd(a, text);
    assert [] + StripSeparators(text) + [] == StripSeparators(text);
  }

  // ------------------------------------------------------------- round trips

  /** A text that spells a code on its own is left alone by the URL handling. */
  lemma BareSpelling(f: CodeFormat, city: City, code: string, text: string)
    requires Clean(f) && HasShape(f, city, code) && Respells(f, text, code)
    ensures Respells(f, StripQrWrapper(text), code)
  {
    RespellingHasNoMarks(f, city, code, text);
    StripKeepsSpelling(f, text, code);
    RespellingHasNoMarks(f, city, code, Strip(text));
  }

  /**
   A respelling of a code of a registered format parses to that code exactly when what the URL handling leaves of it
   still is one, and that is always so in a clean format.
   */
  lemma RespellingsParse(formats: seq<CodeFormat>, f: CodeFormat, city: City, code: string, text: Ascii)
    requires Distinct(formats) && f in formats && IsCode(f, city, code) && Respells(f, text, code)
    ensures ParseCode(formats, text) == Ok(ParsedCode(city, code, f.id)) <==> Respells(f, StripQrWrapper(text), code)
    ensures Clean(f) ==> ParseCode(formats, text) == Ok(ParsedCode(city, code, f.id))
  {
    if Clean(f) { BareSpelling(f, city, code, text); }
    if Respells(f, StripQrWrapper(text), code) {
      ParseOfSpelling(formats, text, f, city, code);
    } else {
      OnlyBySpelling(formats, f, city, code, text);
    }
  }

  lemma OnlyBySpelling(formats: seq<CodeFormat>, f: CodeFormat, city: City, code: string, text: Ascii)
    requires Distinct(formats) && f in formats && !Respells(f, StripQrWrapper(text), code)
    ensures ParseCode(formats, text) != Ok(ParsedCode(city, code, f.id))
  {
    ParseMeansRespelling(formats, text, ParsedCode(city, code, f.id));
    if g :| Spells(formats, text, g, city, code) && IsCode(g, city, code) && g.id == f.id { SameId(formats, f, g); }
  }

  /** `AfterLast` finds the last mark. */
  lemma {:induction false} AfterTheMark(a: string, b: string, c: char)
    requires c !in b
    ensures AfterLast(a + [c] + b, c) == b
  {
    var text := a + [c] + b;
    if b != [] {
      assert text[..|text| - 1] == a + [c] + b[..|b| - 1];
      AfterTheMark(a, b[..|b| - 1], c);
    }
  }

  /** What the URL handling makes of `before + "#" + text`. */
  lemma AfterTheFragment(before: string, text: string)
    requires '#' !in text
    ensures StripQrWrapper(before + "#" + text) == RStrip(text)
  {
    var raw := before + "#" + text;
    var k := LStripIsSuffix(raw);
    assert raw[|before|] == '#';
    var left := before[k..] + "#";
    assert raw[k..] == left + text;
    RStripAfterMark(left, text);
    var m := RStripIsPrefix(text);
    AfterTheMark(before[k..], RStrip(text), '#');
    assert (left + RStrip(text))[|before[k..]|] == '#';
  }

  /**
   The older QR form, `.../r#CODE`: whatever stands before the last `#` does not matter. In any format it parses exactly
   when what the URL handling leaves spells the code, and in a clean one whenever the text after the `#` does.
   */
  lemma FragmentFormParses(formats: seq<CodeFormat>, f: CodeFormat, city: City, code: string, before: Ascii, text: Ascii)
    requires Distinct(formats) && f in formats && IsCode(f, city, code)
    ensures var raw := before + "#" + text;
            && (ParseCode(formats, raw) == Ok(ParsedCode(city, code, f.id)) <==> Respells(f, StripQrWrapper(raw), code))
            && (Clean(f) && Respells(f, text, code) ==> ParseCode(formats, raw) == Ok(ParsedCode(city, code, f.id)))
  {
    var raw := before + "#" + text;
    if Clean(f) && Respells(f, text, code) {
      RespellingHasNoMarks(f, city, code, text);
      RStripKeepsSpelling(f, text, code);
      AfterTheFragment(before, text);
    }
    if Respells(f, StripQrWrapper(raw), code) {
      UnwrapsToSpelling(formats, f, city, code, raw);
    } else {
      OnlyBySpelling(formats, f, city, code, raw);
    }
  }

  /** A text whose unwrapped part spells a code of the registry parses to it. */
  lemma UnwrapsToSpelling(formats: seq<CodeFormat>, f: CodeFormat, city: City, code: string, raw: Ascii)
    requires Distinct(formats) && f in formats && IsCode(f, city, code) && Respells(f, StripQrWrapper(raw), code)
    ensures ParseCode(formats, raw) == Ok(ParsedCode(city, code, f.id))
  {
    ParseOfSpelling(formats, raw, f, city, code);
  }

  lemma {:induction false} RStripAfterMark(a: string, b: string)
    requires a != [] && !IsSpace(a[|a| - 1])
    ensures RStrip(a + b) == a + RStrip(b)
  {
    if b == [] {
      assert a + b == a;
    } else if IsSpace(b[|b| - 1]) {
      assert (a + b)[..|a + b| - 1] == a + b[..|b| - 1];
      RStripAfterMark(a, b[..|b| - 1]);
    }
  }

  // ------------------------------------------------- printed form and QR URL

  lemma {:induction false} GroupsStrip(code: string, grouping: seq<int>, k: nat)
    requires forall i | 0 <= i < |code| :: !IsSeparator(code[i])
    requires Positive(grouping) && k <= |code| && k + Total(grouping) == |code|
    ensures StripSeparators(Groups(code, grouping, k)) == code[k..]
  {
    if grouping != [] {
      TotalNonNegative(grouping[1..]);
      var g: nat := grouping[0];
      var slice, rest := Slice(code, k, g), Groups(code, grouping[1..], k + g);
      GroupsStrip(code, grouping[1..], k + g);
      NextGroupStrips(code, k, g, rest);
    }
  }

  lemma GroupStrips(slice: string, rest: string)
    requires forall i | 0 <= i < |slice| :: !IsSeparator(slice[i])
    ensures StripSeparators("-" + slice + rest) == slice + StripSeparators(rest)
  {
    SeparatorsAdd("-" + slice, rest);
    SeparatorsAdd("-", slice);
    PlainTextKeeps(slice);
    OnlySeparators("-");
    assert [] + slice == slice;
  }

  lemma NextGroupStrips(code: string, k: nat, g: nat, rest: string)
    requires (forall i | 0 <= i < |code| :: !IsSeparator(code[i])) && k + g <= |code|
    requires StripSeparators(rest) == code[k + g..]
    ensures StripSeparators("-" + Slice(code, k, g) + rest) == code[k..]
  {
    GroupStrips(Slice(code, k, g), rest);
    assert code[k..] == code[k..k + g] + code[k + g..];
  }

  ghost predicate OnlyDashesAnd(code: string, text: string) {
    forall i | 0 <= i < |text| :: text[i] == '-' || text[i] in code
  }

  lemma SliceCharacters(code: string, k: nat, size: nat)
    ensures OnlyDashesAnd(code, Slice(code, k, size))
  {
    var slice := Slice(code, k, size);
    forall i | 0 <= i < |slice| ensures slice[i] in code {
      assert slice[i] == code[Min(k, |code|) + i];
    }
  }

  lemma {:induction false} GroupCharacters(code: string, grouping: seq<int>, k: nat)
    requires Positive(grouping) && k <= |code| && k + Total(grouping) == |code|
    ensures OnlyDashesAnd(code, Groups(code, grouping, k))
  {
    if grouping != [] {
      TotalNonNegative(grouping[1..]);
      var rest := Groups(code, grouping[1..], k + grouping[0]);
      GroupCharacters(code, grouping[1..], k + grouping[0]);
      var slice, text := Slice(code, k, grouping[0]), Groups(code, grouping, k);
      assert text == "-" + slice + rest;
      SliceCharacters(code, k, grouping[0]);
    }
  }

  lemma {:induction false} TotalNonNegative(sizes: seq<int>)
    requires Positive(sizes)
    ensures Total(sizes) >= 0
  {
    if sizes != [] { TotalNonNegative(sizes[1..]); }
  }

  /** Without its dashes the printed form is the code. */
  lemma PrintedStrips(f: CodeFormat, code: string)
    requires WellFormed(f) && |code| == f.Length() && forall i | 0 <= i < |code| :: !IsSeparator(code[i])
    ensures StripSeparators(FormatPrinted(code, f)) == code == StripSeparators(code)
  {
    GroupsStrip(code, f.grouping, PREFIX_LENGTH);
    SeparatorsAdd(code[..PREFIX_LENGTH], Groups(code, f.grouping, PREFIX_LENGTH));
    PlainTextKeeps(code[..PREFIX_LENGTH]);
    assert code == code[..PREFIX_LENGTH] + code[PREFIX_LENGTH..];
    PlainTextKeeps(code);
  }

  lemma PrintedCharacters(f: CodeFormat, code: string)
    requires WellFormed(f) && |code| == f.Length()
    ensures OnlyDashesAnd(code, FormatPrinted(code, f)) && FormatPrinted(code, f) != []
  {
    GroupCharacters(code, f.grouping, PREFIX_LENGTH);
    SliceCharacters(code, 0, PREFIX_LENGTH);
  }

  /** A text that is the code once its separators are gone spells the code. */
  lemma SeparatedSpells(f: CodeFormat, code: string, text: string)
    requires StripSeparators(text) == code && forall i | 0 <= i < |code| :: !IsLower(code[i])
    ensures Respells(f, text, code)
  {
    RespellsIsAligned(f, text, code);
  }

  /** The printed form is the code with dashes, and spells it. */
  lemma PrintedSpells(f: CodeFormat, city: City, code: string)
    requires Clean(f) && HasShape(f, city, code)
    ensures StripSeparators(FormatPrinted(code, f)) == code
    ensures Respells(f, FormatPrinted(code, f), code) && Respells(f, code, code)
    ensures IsAscii(FormatPrinted(code, f)) && IsAscii(code)
    ensures FormatPrinted(code, f) != [] && !IsSpace(FormatPrinted(code, f)[|FormatPrinted(code, f)| - 1])
  {
    forall i | 0 <= i < |code| ensures Plain(code[i]) && !IsLower(code[i]) && code[i] as int < 128 {
      CodeIsPlain(f, city, code, i);
    }
    PrintedStrips(f, code);
    PrintedCharacters(f, code);
    SeparatedSpells(f, code, FormatPrinted(code, f));
    SeparatedSpells(f, code, code);
  }

  /** What the parser returns, written canonically or as printed, parses to the same again. */
  lemma ParsingIsIdempotent(formats: seq<CodeFormat>, raw: Ascii, p: ParsedCode)
    requires CleanRegistry(formats) && ParseCode(formats, raw) == Ok(p)
    ensures exists f :: f in formats && f.id == p.format && IsCode(f, p.city, p.canonical)
                        && IsAscii(p.canonical) && ParseCode(formats, p.canonical) == Ok(p)
                        && IsAscii(FormatPrinted(p.canonical, f)) && ParseCode(formats, FormatPrinted(p.canonical, f)) == Ok(p)
  {
    ParseMeansRespelling(formats, raw, p);
    var f :| Spells(formats, raw, f, p.city, p.canonical) && IsCode(f, p.city, p.canonical) && f.id == p.format;
    PrintedSpells(f, p.city, p.canonical);
    RespellingsParse(formats, f, p.city, p.canonical, p.canonical);
    RespellingsParse(formats, f, p.city, p.canonical, FormatPrinted(p.canonical, f));
  }

  lemma {:induction false} RStripSlashIsPrefix(text: string) returns (k: nat)
    ensures k <= |text| && RStripSlash(text) == text[..k] && (forall i | k <= i < |text| :: text[i] == '/')
    ensures k > 0 ==> text[k - 1] != '/'
  {
    if text != [] && text[|text| - 1] == '/' {
      k := RStripSlashIsPrefix(text[..|text| - 1]);
      forall i | k <= i < |text| ensures text[i] == '/' {
        if i < |text| - 1 { assert text[i] == text[..|text| - 1][i]; }
      }
      assert text[..|text| - 1][..k] == text[..k];
    } else {
      k := |text|;
    }
  }

  /** The base of a QR URL survives: a scheme and no fragment mark. */
  predicate UsableBase(base: string) {
    '#' !in base && HasScheme(RStripSlash(base))
  }

  lemma LoweredMarks(text: string)
    ensures HasScheme(LowerAll(text)) <==> HasScheme(text)
    ensures '#' in LowerAll(text) <==> '#' in text
  {
    if i :| 0 <= i < |text| && SchemeAt(text, i) { assert SchemeAt(LowerAll(text), i); }
    if i :| 0 <= i < |text| && SchemeAt(LowerAll(text), i) { assert SchemeAt(text, i); }
    if '#' in text {
      var i :| 0 <= i < |text| && text[i] == '#';
      assert LowerAll(text)[i] == '#';
    }
  }

  lemma RStripSlashKeepsHash(base: string)
    ensures '#' in RStripSlash(base) <==> '#' in base
  {
    var k := RStripSlashIsPrefix(base);
    if '#' in base {
      var i :| 0 <= i < |base| && base[i] == '#';
      assert base[..k][i] == '#';
    }
  }

  /** What is left of `pre + "/b/" + printed` after trimming. */
  lemma TrimmedUrl(pre: string, printed: string) returns (k: nat)
    requires printed != [] && !IsSpace(printed[|printed| - 1])
    ensures k <= |pre| && Strip(pre + "/b/" + printed) == pre[k..] + "/b/" + printed
    ensures forall i | 0 <= i < k :: IsSpace(pre[i])
  {
    var url := pre + "/b/" + printed;
    k := LStripIsSuffix(url);
    assert url[|pre|] == '/';
    assert url[k..] == pre[k..] + "/b/" + printed;
    assert url[k..][|url[k..]| - 1] == printed[|printed| - 1];
    forall i | 0 <= i < k ensures IsSpace(pre[i]) { assert url[i] == pre[i]; }
  }

  lemma TrimmedScheme(pre: string, printed: string, k: nat)
    requires k <= |pre| && (forall i | 0 <= i < k :: IsSpace(pre[i])) && (pre != [] ==> pre[|pre| - 1] != '/')
    requires ':' !in printed
    ensures HasScheme(pre[k..] + "/b/" + printed) <==> HasScheme(pre)
  {
    var rest := pre[k..] + "/b/" + printed;
    if i :| 0 <= i < |pre| && SchemeAt(pre, i) {
      assert i >= k && SchemeAt(rest, i - k);
    }
    if i :| 0 <= i < |rest| && SchemeAt(rest, i) {
      var n := |pre| - k;
      assert rest[n] == '/' && rest[n + 1] == 'b' && rest[n + 2] == '/';
      assert n > 0 ==> rest[n - 1] == pre[|pre| - 1];
      assert i < n + 3 by { assert rest[n + 3..] == printed; assert forall j | n + 3 <= j < |rest| :: rest[j] in printed; }
      assert i + 2 < n;
      assert SchemeAt(pre, i + k);
    }
  }

  /** The last slash, or the last `#`, of a trimmed QR URL. */
  lemma UrlAfterTrim(pre: string, printed: string, k: nat)
    requires k <= |pre| && (forall i | 0 <= i < k :: IsSpace(pre[i])) && '/' !in printed && '#' !in printed
    ensures var rest := pre[k..] + "/b/" + printed;
            && '/' in rest && AfterLast(rest, '/') == printed
            && ('#' in rest <==> '#' in pre)
            && ('#' in rest ==> '/' in AfterLast(rest, '#'))
  {
    var rest := pre[k..] + "/b/" + printed;
    assert rest == (pre[k..] + "/b") + "/" + printed;
    AfterTheMark(pre[k..] + "/b", printed, '/');
    assert rest[|pre| - k] == '/';
    if '#' in pre {
      var i :| 0 <= i < |pre| && pre[i] == '#';
      assert rest[i - k] == '#';
    }
    if '#' in rest {
      var i :| 0 <= i < |rest| && rest[i] == '#';
      assert i < |pre| - k;
      MarkThenSlash(rest, i, |pre| - k);
    }
  }

  /** A slash after some `#` with no `#` after the slash is kept. */
  lemma {:induction false} MarkThenSlash(text: string, i: nat, j: nat)
    requires i < j < |text| && text[i] == '#' && text[j] == '/' && forall m | j < m < |text| :: text[m] != '#'
    ensures '/' in AfterLast(text, '#')
  {
    var n := |text| - 1;
    if j == n {
      assert AfterLast(text, '#')[|AfterLast(text, '#')| - 1] == '/';
    } else {
      MarkThenSlash(text[..n], i, j);
      var rest := AfterLast(text[..n], '#');
      var m :| 0 <= m < |rest| && rest[m] == '/';
      assert AfterLast(text, '#')[m] == '/';
    }
  }

  /** What the URL handling makes of a QR URL: the printed code, or something with a slash in it. */
  lemma UnwrappedUrl(f: CodeFormat, city: City, code: string, base: string)
    requires Clean(f) && HasShape(f, city, code)
    ensures var rest := StripQrWrapper(QrUrl(base, code, f));
            if UsableBase(base) then rest == FormatPrinted(code, f) else '/' in rest
  {
    var printed, pre := FormatPrinted(code, f), LowerAll(RStripSlash(base));
    var n := RStripSlashIsPrefix(base);
    PrintedSpells(f, city, code);
    RespellingHasNoMarks(f, city, code, printed);
    LoweredMarks(RStripSlash(base));
    RStripSlashKeepsHash(base);
    var k := TrimmedUrl(pre, printed);
    TrimmedScheme(pre, printed, k);
    UrlAfterTrim(pre, printed, k);
  }

  lemma QrUrlIsAscii(f: CodeFormat, city: City, code: string, base: Ascii)
    requires Clean(f) && HasShape(f, city, code)
    ensures IsAscii(QrUrl(base, code, f))
  {
    var n := RStripSlashIsPrefix(base);
    PrintedSpells(f, city, code);
    forall i | 0 <= i < n ensures LowerAll(base[..n])[i] as int < 128 { assert base[i] in base; }
  }

  /** A scanned QR code parses to the code it was printed for, if and only if its base has a scheme and no `#`. */
  lemma QrUrlParses(formats: seq<CodeFormat>, f: CodeFormat, city: City, code: string, base: Ascii)
    requires Distinct(formats) && Clean(f) && f in formats && IsCode(f, city, code)
    ensures IsAscii(QrUrl(base, code, f))
    ensures ParseCode(formats, QrUrl(base, code, f)) == Ok(ParsedCode(city, code, f.id)) <==> UsableBase(base)
  {
    var url := QrUrl(base, code, f);
    QrUrlIsAscii(f, city, code, base);
    UnwrappedUrl(f, city, code, base);
    PrintedSpells(f, city, code);
    if UsableBase(base) {
      ParseOfSpelling(formats, url, f, city, code);
    } else {
      if Respells(f, StripQrWrapper(url), code) { RespellingHasNoMarks(f, city, code, StripQrWrapper(url)); }
      OnlyBySpelling(formats, f, city, code, url);
    }
  }

  // ---------------------------------------------------------- typing errors

  function Typo(code: string, k: nat, c: char): string
    requires PREFIX_LENGTH <= k < |code|
  {
    code[k := c]
  }

  /** One character of a code mistyped as another of the alphabet is reported as a typing error. */
  lemma TypoIsMistyped(formats: seq<CodeFormat>, f: CodeFormat, city: City, code: string, k: nat, c: char)
    requires Distinct(formats) && Clean(f) && f in formats && f.Base() % 2 == 0 && IsCode(f, city, code)
    requires PREFIX_LENGTH <= k < |code| && c in f.alphabet && c != code[k]
    ensures IsAscii(Typo(code, k, c)) && ParseCode(formats, Typo(code, k, c)) == Err(Mistyped)
  {
    var typo, tail := Typo(code, k, c), code[PREFIX_LENGTH..];
    TypoAfterPrefix(code, k, c);
    TypoFails(f, city, code, typo, k - PREFIX_LENGTH, c);
    ShapedParses(formats, f, city, typo);
  }

  lemma TypoAfterPrefix(code: string, k: nat, c: char)
    requires PREFIX_LENGTH <= k < |code|
    ensures Typo(code, k, c)[PREFIX_LENGTH..] == code[PREFIX_LENGTH..][k - PREFIX_LENGTH := c]
    ensures Typo(code, k, c)[..PREFIX_LENGTH] == code[..PREFIX_LENGTH] && |Typo(code, k, c)| == |code|
  {
  }

  lemma TypoFails(f: CodeFormat, city: City, code: string, typo: string, i: nat, c: char)
    requires f.Base() % 2 == 0 && IsCode(f, city, code) && PREFIX_LENGTH + i < |code| == |typo| && c in f.alphabet
    requires c != code[PREFIX_LENGTH..][i] && typo[PREFIX_LENGTH..] == code[PREFIX_LENGTH..][i := c] && typo[..PREFIX_LENGTH] == code[..PREFIX_LENGTH]
    ensures HasShape(f, city, typo) && !CheckIsValid(f, city, typo[PREFIX_LENGTH..])
  {
    WrongCharacterDetected(f, city, code[PREFIX_LENGTH..], i, c);
  }

  /** The right tail after another city's prefix is reported too. */
  lemma WrongPrefixIsMistyped(formats: seq<CodeFormat>, f: CodeFormat, city: City, other: City, code: string)
    requires Distinct(formats) && Clean(f) && f in formats && f.Base() % 2 == 0 && IsCode(f, city, code) && other != city
    ensures var typo := Prefix(other) + code[PREFIX_LENGTH..];
            IsAscii(typo) && ParseCode(formats, typo) == Err(Mistyped)
  {
    var tail := code[PREFIX_LENGTH..];
    WrongCityDetected(f, city, other, tail);
    var typo := Prefix(other) + tail;
    assert typo[..PREFIX_LENGTH] == Prefix(other) && typo[PREFIX_LENGTH..] == tail;
    ShapedParses(formats, f, other, typo);
  }

  /** Two neighbours after the prefix swapped are reported, unless they are alike or the ends of the alphabet. */
  lemma SwapIsMistyped(formats: seq<CodeFormat>, f: CodeFormat, city: City, code: string, k: nat)
    requires Distinct(formats) && Clean(f) && f in formats && IsCode(f, city, code)
    requires PREFIX_LENGTH <= k && k + 1 < |code|
    ensures IsAscii(SwapAt(code, k))
    ensures ParseCode(formats, SwapAt(code, k)) == Err(Mistyped) <==> !Confusable(f, code[k], code[k + 1])
  {
    var typo := SwappedCode(f, city, code, k);
    ShapedParses(formats, f, city, typo);
  }

  lemma SwappedCode(f: CodeFormat, city: City, code: string, k: nat) returns (typo: string)
    requires IsCode(f, city, code) && PREFIX_LENGTH <= k && k + 1 < |code|
    ensures typo == SwapAt(code, k) && HasShape(f, city, typo)
    ensures CheckIsValid(f, city, typo[PREFIX_LENGTH..]) <==> Confusable(f, code[k], code[k + 1])
  {
    typo := SwapAfterPrefix(code, k);
    TailSwapped(f, city, code, typo, k - PREFIX_LENGTH);
  }

  lemma TailSwapped(f: CodeFormat, city: City, code: string, typo: string, i: nat)
    requires IsCode(f, city, code) && i + PREFIX_LENGTH + 1 < |code| == |typo|
    requires typo[..PREFIX_LENGTH] == code[..PREFIX_LENGTH] && typo[PREFIX_LENGTH..] == SwapAt(code[PREFIX_LENGTH..], i)
    ensures HasShape(f, city, typo)
    ensures CheckIsValid(f, city, typo[PREFIX_LENGTH..]) <==> Confusable(f, code[i + PREFIX_LENGTH], code[i + PREFIX_LENGTH + 1])
  {
    SwapDetected(f, city, code[PREFIX_LENGTH..], i);
  }

  lemma SwapAfterPrefix(code: string, k: nat) returns (typo: string)
    requires PREFIX_LENGTH <= k && k + 1 < |code|
    ensures typo == SwapAt(code, k) && |typo| == |code| && typo[..PREFIX_LENGTH] == code[..PREFIX_LENGTH]
    ensures typo[PREFIX_LENGTH..] == SwapAt(code[PREFIX_LENGTH..], k - PREFIX_LENGTH)
  {
    typo := SwapAt(code, k);
  }

  /** Text of the right shape is a code or a typing error, as its check character says. */
  lemma ShapedParses(formats: seq<CodeFormat>, f: CodeFormat, city: City, text: string)
    requires Distinct(formats) && Clean(f) && f in formats && HasShape(f, city, text)
    ensures IsAscii(text)
    ensures ParseCode(formats, text) ==
            if CheckIsValid(f, city, text[PREFIX_LENGTH..]) then Ok(ParsedCode(city, text, f.id)) else Err(Mistyped)
  {
    PrintedSpells(f, city, text);
    BareSpelling(f, city, text, text);
    ParseOfSpelling(formats, text, f, city, text);
  }
}
