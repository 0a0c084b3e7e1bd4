/**
 Printed codes: two letters of the city, a random body and one check character. This
 module has the formats, their registry and what the check character catches; `Parsing`
 reads what people type.
 */
module Codes {
  import opened Prelude
  import Luhn

  const PREFIX_LENGTH := 2
  const CROCKFORD_BASE32 := "0123456789ABCDEFGHJKMNPQRSTVWXYZ"
  const CROCKFORD_ALIASES: map<char, char> := map['O' := '0', 'I' := '1', 'L' := '1']
  const CITIES: seq<City> := [Paris, Berlin, Pattaya, Mexico, Madrid, Tokyo, Moscow]
  const MAX_CITY_INDEX := 7

  /** `CityCode`. */
  function Prefix(city: City): string
    ensures |Prefix(city)| == PREFIX_LENGTH && '0' !in Prefix(city)
  {
    match city
    case Paris => "PR"
    case Berlin => "BE"
    case Pattaya => "PA"
    case Mexico => "ME"
    case Madrid => "MA"
    case Tokyo => "TO"
    case Moscow => "MO"
  }

  /** `CITY_CHECK_INDEX`. */
  function CityIndex(city: City): nat
    ensures 1 <= CityIndex(city) <= MAX_CITY_INDEX
  {
    match city
    case Paris => 1
    case Berlin => 2
    case Pattaya => 3
    case Mexico => 4
    case Madrid => 5
    case Tokyo => 6
    case Moscow => 7
  }

  datatype CodeFormat = CodeFormat(
    id: string, bodyLength: int, grouping: seq<int>, alphabet: string, aliases: map<char, char>, checkScheme: string)
  {
    function Base(): nat { |alphabet| }

    function Length(): int { PREFIX_LENGTH + bodyLength + 1 }
  }

  function Total(sizes: seq<int>): int {
    if sizes == [] then 0 else sizes[0] + Total(sizes[1..])
  }

  predicate Positive(sizes: seq<int>) {
    forall i | 0 <= i < |sizes| :: sizes[i] >= 1
  }

  predicate IsAscii(text: string) {
    forall c | c in text :: c as int < 128
  }

  predicate IsLower(c: char) { 'a' <= c <= 'z' }

  /** `CodeFormat.__post_init__` raises nothing. */
  predicate WellFormed(f: CodeFormat) {
    && f.id != "" && IsAscii(f.id)
    && f.Base() >= 2 && (forall i, j | 0 <= i < j < f.Base() :: f.alphabet[i] != f.alphabet[j])
    && IsAscii(f.alphabet) && (forall c | c in f.alphabet :: !IsLower(c))
    && f.bodyLength >= 1
    && f.grouping != [] && Positive(f.grouping)
    && Total(f.grouping) == f.bodyLength + 1
    && (forall typed | typed in f.aliases :: typed !in f.alphabet && f.aliases[typed] in f.alphabet)
    && f.checkScheme == "luhn-mod-n"
    && MAX_CITY_INDEX < f.Base()
  }

  const V2_B10 := CodeFormat("v2-b10", 10, [4, 4, 3], CROCKFORD_BASE32, CROCKFORD_ALIASES, "luhn-mod-n")
  const CITY2_B9 := CodeFormat("city2-b9", 8, [3, 3, 3], CROCKFORD_BASE32, CROCKFORD_ALIASES, "luhn-mod-n")
  const DEFAULT_FORMAT_ID := "city2-b9"

  // ----------------------------------------------------------- check values

  /** `alphabet.index(c)`. */
  function Index(alphabet: string, c: char): (i: nat)
    requires c in alphabet
    ensures i < |alphabet| && alphabet[i] == c
  {
    if alphabet[0] == c then 0 else 1 + Index(alphabet[1..], c)
  }

  predicate InAlphabet(f: CodeFormat, text: string) {
    forall i | 0 <= i < |text| :: text[i] in f.alphabet
  }

  /** The city index and then the values of the characters. */
  function Symbols(f: CodeFormat, city: City, text: string): (values: seq<nat>)
    requires InAlphabet(f, text)
    ensures |values| == |text| + 1 && values[0] == CityIndex(city)
    ensures forall i | 0 <= i < |text| :: values[i + 1] == Index(f.alphabet, text[i])
  {
    [CityIndex(city)] + seq(|text|, i requires 0 <= i < |text| => Index(f.alphabet, text[i]))
  }

  function ComputeCheckValue(f: CodeFormat, city: City, body: string): nat
    requires WellFormed(f) && InAlphabet(f, body)
  {
    Luhn.CheckValue(Symbols(f, city, body), f.Base())
  }

  /** `check_is_valid` over the body and the check together. */
  predicate CheckIsValid(f: CodeFormat, city: City, tail: string)
    requires WellFormed(f) && InAlphabet(f, tail)
  {
    Luhn.Valid(Symbols(f, city, tail), f.Base())
  }

  lemma SymbolsInRange(f: CodeFormat, city: City, text: string)
    requires WellFormed(f) && InAlphabet(f, text)
    ensures Luhn.Symbols(Symbols(f, city, text), f.Base())
  {
    var values := Symbols(f, city, text);
    forall i | 0 <= i < |values| ensures values[i] < f.Base() {
      if i > 0 { assert values[i] == Index(f.alphabet, text[i - 1]); }
    }
  }

  /** Appending the computed check character makes a valid code, and no other character does. */
  lemma OneCheckCharacter(f: CodeFormat, city: City, body: string, check: char)
    requires WellFormed(f) && InAlphabet(f, body) && check in f.alphabet
    ensures ComputeCheckValue(f, city, body) < f.Base()
    ensures CheckIsValid(f, city, body + [check]) <==> check == f.alphabet[ComputeCheckValue(f, city, body)]
  {
    var values, i := Symbols(f, city, body), Index(f.alphabet, check);
    Luhn.CheckIsTheOnlyOne(values, f.Base(), i);
    assert Symbols(f, city, body + [check]) == values + [i];
  }

  /** One character mistyped passes the check exactly when it is doubled there, to the same addend. */
  lemma WrongCharacterDetected(f: CodeFormat, city: City, tail: string, i: nat, c: char)
    requires WellFormed(f) && InAlphabet(f, tail) && CheckIsValid(f, city, tail)
    requires i < |tail| && c in f.alphabet && c != tail[i]
    ensures InAlphabet(f, tail[i := c])
    ensures CheckIsValid(f, city, tail[i := c]) <==>
            (|tail| - 1 - i) % 2 == 1 && Luhn.SameDouble(f.Base(), Index(f.alphabet, tail[i]), Index(f.alphabet, c))
  {
    var values := Symbols(f, city, tail);
    SymbolsInRange(f, city, tail);
    ReplacedSymbols(f, city, tail, i, c);
    assert values[i + 1] == Index(f.alphabet, tail[i]);
    Luhn.SubstitutionUndetected(values, f.Base(), i + 1, Index(f.alphabet, c));
  }

  /** Every single mistyped character in every valid code of the format fails the check. */
  ghost predicate DetectsTypos(f: CodeFormat)
    requires WellFormed(f)
  {
    forall city, tail, i, c | ValidTail(f, city, tail) && 0 <= i < |tail| && c in f.alphabet && c != tail[i] ::
      !ValidTail(f, city, tail[i := c])
  }

  /** A body and a check character that pass. */
  predicate ValidTail(f: CodeFormat, city: City, tail: string)
    requires WellFormed(f)
  {
    |tail| == f.bodyLength + 1 && InAlphabet(f, tail) && CheckIsValid(f, city, tail)
  }

  /** Formats of even base, and only those, detect every mistyped character. */
  lemma DetectionNeedsAnEvenBase(f: CodeFormat)
    requires WellFormed(f)
    ensures DetectsTypos(f) <==> f.Base() % 2 == 0
  {
    if f.Base() % 2 == 0 {
      forall city, tail, i, c | ValidTail(f, city, tail) && 0 <= i < |tail| && c in f.alphabet && c != tail[i]
        ensures !ValidTail(f, city, tail[i := c])
      {
        WrongCharacterDetected(f, city, tail, i, c);
      }
    } else {
      var tail, c := UndetectedTypo(f, Paris);
    }
  }

  /** In an odd base, the middle character of the alphabet as the last of the body, mistyped as the last of the alphabet. */
  lemma UndetectedTypo(f: CodeFormat, city: City) returns (tail: string, c: char)
    requires WellFormed(f) && f.Base() % 2 == 1
    ensures ValidTail(f, city, tail) && c in f.alphabet && c != tail[f.bodyLength - 1]
    ensures ValidTail(f, city, tail[f.bodyLength - 1 := c])
  {
    var n, middle := f.bodyLength, f.alphabet[f.Base() / 2];
    var body := seq(n, i requires 0 <= i < n => middle);
    c := f.alphabet[f.Base() - 1];
    assert InAlphabet(f, body);
    var check := Luhn.CheckValue(Symbols(f, city, body), f.Base());
    OneCheckCharacter(f, city, body, f.alphabet[0]);
    OneCheckCharacter(f, city, body, f.alphabet[check]);
    tail := body + [f.alphabet[check]];
    IndexOf(f, middle, f.Base() / 2);
    IndexOf(f, c, f.Base() - 1);
    WrongCharacterDetected(f, city, tail, n - 1, c);
  }

  lemma ReplacedSymbols(f: CodeFormat, city: City, tail: string, i: nat, c: char)
    requires InAlphabet(f, tail) && i < |tail| && c in f.alphabet
    ensures InAlphabet(f, tail[i := c])
    ensures Symbols(f, city, tail[i := c]) == Symbols(f, city, tail)[i + 1 := Index(f.alphabet, c)]
  {
    assert InAlphabet(f, tail[i := c]);
  }

  /** The prefix of another city passes exactly when the two city indexes are doubled, to the same addend. */
  lemma WrongCityDetected(f: CodeFormat, city: City, other: City, tail: string)
    requires WellFormed(f) && InAlphabet(f, tail) && CheckIsValid(f, city, tail) && other != city
    ensures CheckIsValid(f, other, tail) <==> |tail| % 2 == 1 && Luhn.SameDouble(f.Base(), CityIndex(city), CityIndex(other))
  {
    var values := Symbols(f, city, tail);
    SymbolsInRange(f, city, tail);
    assert Symbols(f, other, tail) == values[0 := CityIndex(other)];
    Luhn.SubstitutionUndetected(values, f.Base(), 0, CityIndex(other));
  }

  function SwapAt(text: string, i: nat): string
    requires i + 1 < |text|
  {
    text[i := text[i + 1]][i + 1 := text[i]]
  }

  /** Equal, or one the first and the other the last character of the alphabet. */
  predicate Confusable(f: CodeFormat, a: char, b: char)
    requires f.Base() > 0
  {
    var first, last := f.alphabet[0], f.alphabet[f.Base() - 1];
    a == b || (a == first && b == last) || (a == last && b == first)
  }

  lemma IndexOf(f: CodeFormat, c: char, k: nat)
    requires WellFormed(f) && c in f.alphabet && k < f.Base()
    ensures f.alphabet[k] == c <==> k == Index(f.alphabet, c)
  {
    var i := Index(f.alphabet, c);
    if f.alphabet[k] == c { assert !(k < i) && !(i < k); }
  }

  lemma ConfusableValues(f: CodeFormat, a: char, b: char)
    requires WellFormed(f) && a in f.alphabet && b in f.alphabet
    ensures Luhn.Alike(f.Base(), Index(f.alphabet, a), Index(f.alphabet, b)) <==> Confusable(f, a, b)
  {
    IndexOf(f, a, 0);
    IndexOf(f, b, 0);
    IndexOf(f, a, f.Base() - 1);
    IndexOf(f, b, f.Base() - 1);
  }

  lemma SwappedSymbols(f: CodeFormat, city: City, tail: string, i: nat)
    requires InAlphabet(f, tail) && i + 1 < |tail|
    ensures InAlphabet(f, SwapAt(tail, i))
    ensures Symbols(f, city, SwapAt(tail, i)) == Luhn.Swapped(Symbols(f, city, tail), i + 1)
  {
    assert InAlphabet(f, SwapAt(tail, i));
  }

  /** Two neighbours swapped pass the check exactly when equal, or the first and last of the alphabet. */
  lemma SwapDetected(f: CodeFormat, city: City, tail: string, i: nat)
    requires WellFormed(f) && InAlphabet(f, tail) && CheckIsValid(f, city, tail) && i + 1 < |tail|
    ensures InAlphabet(f, SwapAt(tail, i))
    ensures CheckIsValid(f, city, SwapAt(tail, i)) <==> Confusable(f, tail[i], tail[i + 1])
  {
    var values := Symbols(f, city, tail);
    SymbolsInRange(f, city, tail);
    SwappedSymbols(f, city, tail, i);
    Luhn.SwapUndetected(values, f.Base(), i + 1);
    ConfusableValues(f, tail[i], tail[i + 1]);
    assert values[i + 1] == Index(f.alphabet, tail[i]) && values[i + 2] == Index(f.alphabet, tail[i + 1]);
  }

  // --------------------------------------------------------------- registry

  datatype Registration = Registered | IdTaken | LengthTaken

  /** What holds of `FORMATS`: well-formed formats, of distinct ids and distinct lengths. */
  ghost predicate Distinct(formats: seq<CodeFormat>) {
    && (forall f | f in formats :: WellFormed(f))
    && forall i, j | 0 <= i < j < |formats| ::
         formats[i].id != formats[j].id && formats[i].Length() != formats[j].Length()
  }

  function FormatOfLength(formats: seq<CodeFormat>, n: int): Option<CodeFormat> {
    if formats == [] then None
    else if formats[0].Length() == n then Some(formats[0])
    else FormatOfLength(formats[1..], n)
  }

  function FormatOfId(formats: seq<CodeFormat>, id: string): Option<CodeFormat> {
    if formats == [] then None
    else if formats[0].id == id then Some(formats[0])
    else FormatOfId(formats[1..], id)
  }

  /** In a registry the format found is the one and only of that length. */
  lemma {:induction false} LengthDecides(formats: seq<CodeFormat>, f: CodeFormat)
    requires Distinct(formats) && f in formats
    ensures FormatOfLength(formats, f.Length()) == Some(f)
  {
    if formats[0] != f {
      var i :| 0 <= i < |formats| && formats[i] == f;
      assert formats[1..][i - 1] == f;
      LengthDecides(formats[1..], f);
    }
  }

  lemma {:induction false} Found(formats: seq<CodeFormat>, n: int, id: string)
    ensures match FormatOfLength(formats, n)
            case None => forall f | f in formats :: f.Length() != n
            case Some(f) => f in formats && f.Length() == n
    ensures match FormatOfId(formats, id)
            case None => forall f | f in formats :: f.id != id
            case Some(f) => f in formats && f.id == id
  {
    if formats != [] { Found(formats[1..], n, id); }
  }

  /** The dictionary `FORMATS`, in its insertion order. */
  class Registry {
    var formats: seq<CodeFormat>

    ghost predicate Valid()
      reads this
    {
      Distinct(formats) && exists f | f in formats :: f.id == DEFAULT_FORMAT_ID
    }

    /** The registry as the module leaves it when it is imported. */
    constructor ()
      ensures Valid() && formats == [V2_B10, CITY2_B9]
    {
      formats := [V2_B10, CITY2_B9];
      new;
      RegisteredFormats();
      assert formats[1].id == DEFAULT_FORMAT_ID;
    }

    /** `register_format` of a format that could be constructed. */
    method Register(f: CodeFormat) returns (r: Registration)
      requires Valid() && WellFormed(f)
      modifies this
      ensures Valid()
      ensures r == IdTaken <==> exists g | g in old(formats) :: g.id == f.id && g != f
      ensures r == LengthTaken <==>
              f !in old(formats) && (forall g | g in old(formats) :: g.id != f.id) && exists g | g in old(formats) :: g.Length() == f.Length()
      ensures r.Registered? ==> f in formats
      ensures formats == if r.Registered? && f !in old(formats) then old(formats) + [f] else old(formats)
    {
      Found(formats, f.Length(), f.id);
      var existing := FormatOfId(formats, f.id);
      if existing.Some? {
        forall g | g in formats && g.id == f.id ensures g == existing.value {
          SameId(formats, g, existing.value);
        }
        return if existing.value == f then Registered else IdTaken;
      }
      if FormatOfLength(formats, f.Length()).Some? { return LengthTaken; }
      formats := formats + [f];
      assert formats[|formats| - 1] == f;
      r := Registered;
    }
  }

  lemma SameId(formats: seq<CodeFormat>, f: CodeFormat, g: CodeFormat)
    requires Distinct(formats) && f in formats && g in formats && f.id == g.id
    ensures f == g
  {
    var i :| 0 <= i < |formats| && formats[i] == f;
    var j :| 0 <= j < |formats| && formats[j] == g;
    assert !(i < j) && !(j < i);
  }

  /** The Crockford alphabet in order: digits, then the letters but I, L, O and U. */
  lemma CrockfordAt(i: nat)
    requires i < 32
    ensures |CROCKFORD_BASE32| == 32
    ensures CROCKFORD_BASE32[i] as int == i + (if i < 10 then 48 else if i < 18 then 55 else if i < 20 then 56
                                               else if i < 22 then 57 else if i < 27 then 58 else 59)
  {
  }

  lemma Crockford()
    ensures |CROCKFORD_BASE32| == 32
    ensures forall i | 0 <= i < 32 :: '0' <= CROCKFORD_BASE32[i] <= 'Z' && CROCKFORD_BASE32[i] !in CROCKFORD_ALIASES
    ensures forall i, j | 0 <= i < j < 32 :: CROCKFORD_BASE32[i] != CROCKFORD_BASE32[j]
    ensures '0' in CROCKFORD_BASE32 && '1' in CROCKFORD_BASE32
  {
    forall i | 0 <= i < 32
      ensures '0' <= CROCKFORD_BASE32[i] <= 'Z' && CROCKFORD_BASE32[i] !in CROCKFORD_ALIASES
    {
      CrockfordAt(i);
    }
    forall i, j | 0 <= i < j < 32 ensures CROCKFORD_BASE32[i] != CROCKFORD_BASE32[j] {
      CrockfordAt(i);
      CrockfordAt(j);
    }
    assert CROCKFORD_BASE32[0] == '0' && CROCKFORD_BASE32[1] == '1';
  }

  lemma Groupings()
    ensures Total([4, 4, 3]) == 11 && Total([3, 3, 3]) == 9
  {
    assert Total([4, 4, 3]) == 4 + Total([4, 3]) by { assert [4, 4, 3][1..] == [4, 3]; }
    assert Total([4, 3]) == 4 + Total([3]) by { assert [4, 3][1..] == [3]; }
    assert Total([3, 3, 3]) == 3 + Total([3, 3]) by { assert [3, 3, 3][1..] == [3, 3]; }
    assert Total([3, 3]) == 3 + Total([3]) by { assert [3, 3][1..] == [3]; }
    assert Total([3]) == 3 + Total([]) by { assert [3][1..] == []; }
  }

  lemma CrockfordFormat(f: CodeFormat)
    requires f.Base() == 32 && (forall i | 0 <= i < 32 :: '0' <= f.alphabet[i] <= 'Z' && f.alphabet[i] !in f.aliases)
    requires forall i, j | 0 <= i < j < 32 :: f.alphabet[i] != f.alphabet[j]
    requires '0' in f.alphabet && '1' in f.alphabet && f.aliases == CROCKFORD_ALIASES
    requires f.id != "" && IsAscii(f.id) && f.bodyLength >= 1 && f.checkScheme == "luhn-mod-n"
    requires f.grouping != [] && Positive(f.grouping) && Total(f.grouping) == f.bodyLength + 1
    ensures WellFormed(f)
  {
  }

  lemma TwoFormats(f: CodeFormat, g: CodeFormat)
    requires WellFormed(f) && WellFormed(g) && f.id != g.id && f.Length() != g.Length()
    ensures Distinct([f, g])
  {
  }

  lemma LongFormat()
    ensures WellFormed(V2_B10) && V2_B10.Base() == 32
  {
    Crockford();
    Groupings();
    CrockfordFormat(V2_B10);
  }

  lemma ShortFormat()
    ensures WellFormed(CITY2_B9) && CITY2_B9.Base() == 32
  {
    Crockford();
    Groupings();
    CrockfordFormat(CITY2_B9);
  }

  lemma RegisteredFormats()
    ensures WellFormed(V2_B10) && WellFormed(CITY2_B9) && V2_B10.Base() == CITY2_B9.Base() == 32
    ensures Distinct([V2_B10, CITY2_B9])
  {
    LongFormat();
    ShortFormat();
    assert V2_B10.id[0] != CITY2_B9.id[0];
    TwoFormats(V2_B10, CITY2_B9);
  }

  /** Adding a format leaves every length that was taken with its format. */
  lemma {:induction false} LaterFormatsChangeNothing(formats: seq<CodeFormat>, more: seq<CodeFormat>, n: int)
    requires FormatOfLength(formats, n).Some?
    ensures FormatOfLength(formats + more, n) == FormatOfLength(formats, n)
  {
    if formats[0].Length() != n {
      assert (formats + more)[1..] == formats[1..] + more;
      LaterFormatsChangeNothing(formats[1..], more, n);
    }
  }
}
