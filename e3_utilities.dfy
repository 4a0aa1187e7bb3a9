/** e3's string utilities: IntToString, which renders an int32 into a text
    buffer, Tokenize, which splits at any of a set of delimiter characters,
    and RandomString, which draws characters from a character set. */
module E3Utilities {
  import opened Wrappers
  import opened Arithmetic

  /** The largest divisor of IntToString's loop, and the first value it
      answers with "Huge!". */
  const TopDivisor: nat := 100_000_000

  const Int32Min: int := -0x8000_0000
  const Int32Max: int := 0x7FFF_FFFF

  /** '0' + digit; for digit > 9 a character past '9'. */
  function DigitChar(d: nat): char
    requires d < 0xD000
  {
    (48 + d) as char
  }

  /** The usual decimal rendering of n, except that 0 renders as nothing,
      which is what IntToString gives for it. */
  function Decimal(n: nat): (r: string)
    ensures forall i :: 0 <= i < |r| ==> '0' <= r[i] <= '9'
    ensures n > 0 <==> |r| > 0
    ensures |r| > 0 ==> r[0] != '0'
  {
    if n == 0 then "" else Decimal(n / 10) + [DigitChar(n % 10)]
  }

  /** The number a string of digits stands for. */
  function ValueOf(digits: string): nat
    requires forall i :: 0 <= i < |digits| ==> '0' <= digits[i] <= '9'
  {
    if digits == [] then 0
    else ValueOf(digits[..|digits| - 1]) * 10 + (digits[|digits| - 1] as int - 48)
  }

  /** Reading the rendering back gives the number. */
  lemma {:induction false} DecimalRoundTrip(n: nat)
    ensures ValueOf(Decimal(n)) == n
  {
    if n > 0 {
      DecimalRoundTrip(n / 10);
      var d := Decimal(n);
      assert d[..|d| - 1] == Decimal(n / 10);
    }
  }

  /** How one step of the divisor loop moves from 10d to d. */
  lemma StepDown(v: nat, d: nat)
    requires d > 0
    ensures (v % (10 * d)) / d == (v / d) % 10
    ensures v % (10 * d) - ((v / d) % 10) * d == v % d
    ensures (v / d) / 10 == v / (10 * d)
    ensures v / d == (v / (10 * d)) * 10 + (v % (10 * d)) / d
    ensures (v % (10 * d)) / d < 10
  {
    var q, r := v / d, v % d;
    var a, b := q / 10, q % 10;
    assert v == q * d + r;
    assert q == a * 10 + b;
    assert q * d == a * (10 * d) + b * d by {
      assert (a * 10 + b) * d == a * 10 * d + b * d;
    }
    assert b * d + r < 10 * d by {
      MulMonotone(b, 9, d);
    }
    DivModUnique(v, 10 * d, a, b * d + r);
    DivModUnique(b * d + r, d, b, r);
  }

  /** IntToString(value, text, maxLen), the text buffer being the result.
      Values from 100000000 up give "Huge!"; negative values get a minus
      sign and are negated (INT_MIN, whose negation overflows, is
      excluded). Digits follow without leading zeros, so 0 gives the empty
      text. A negative value at or below -1000000000 leaves a quotient
      above 9 for the first digit, which comes out as a non-digit. */
  method IntToString(value: int) returns (text: string)
    requires Int32Min < value <= Int32Max
    ensures value >= TopDivisor ==> text == "Huge!"
    ensures -10 * TopDivisor < value < TopDivisor ==>
      text == (if value < 0 then "-" else "") + Decimal(if value < 0 then -value else value)
    ensures value <= -10 * TopDivisor ==>
      |text| >= 2 && text[0] == '-' && text[1] == DigitChar(-value / TopDivisor) && text[1] > '9'
  {
    if value >= TopDivisor {
      return "Huge!";
    }
    var v: nat;
    if value < 0 {
      text := "-";
      v := -value;
    } else {
      text := "";
      v := value;
    }
    var digits := AppendDigits(v);
    text := text + digits;
  }

  /** The divisor loop of IntToString, from 100000000 down to 1: a digit is
      appended once one before it was, or once it is not zero. */
  method AppendDigits(v: nat) returns (text: string)
    requires v <= Int32Max
    ensures v < 10 * TopDivisor ==> text == Decimal(v)
    ensures v >= 10 * TopDivisor ==> |text| > 0 && text[0] == DigitChar(v / TopDivisor) && text[0] > '9'
  {
    text := "";
    var value: int := v;
    ghost var hi: nat := 0;
    var state := false;
    var div: nat := TopDivisor;
    while div >= 1
      invariant DividerLoop(v, div, value, hi, text, state)
      decreases div
    {
      ghost var (div0, value0, hi0, text0, state0) := (div, value, hi, text, state);
      DigitBound(v, div, value, hi, text, state);
      var digit: nat := value / div;
      value := value - digit * div;
      if state || digit > 0 {
        text := text + [DigitChar(digit)];
        state := true;
      }
      hi := hi * 10 + digit;
      if div == 1 {
        div := 0;
      } else {
        div := div / 10;
      }
      DividerStep(v, div0, value0, hi0, text0, state0, div, value, hi, text, state);
    }
    if v >= 10 * TopDivisor {
      assert v / TopDivisor > 9;
    }
  }

  /** The divisors the loop passes through: the powers of ten up to
      TopDivisor. */
  predicate PowerOfTen(d: nat) {
    d == 1 || d == 10 || d == 100 || d == 1000 || d == 10_000 || d == 100_000
    || d == 1_000_000 || d == 10_000_000 || d == TopDivisor
  }

  /** What holds before each pass of the divisor loop: `div` is the
      current power of ten (0 once the loop is done), `value` the part of
      `v` below 10 * div, and `hi` the part above, whose rendering is the
      text so far when no quotient exceeds 9; otherwise the text starts
      with the first, oversized digit. */
  ghost predicate DividerLoop(v: nat, div: nat, value: int, hi: nat, text: string, state: bool) {
    v <= Int32Max
    && (div == 0 || PowerOfTen(div))
    && (0 < div < TopDivisor ==> value == v % (10 * div))
    && (div == TopDivisor ==> value == v && text == "" && !state && hi == 0)
    && (v < 10 * TopDivisor && div > 0 ==> hi == v / (10 * div))
    && (v < 10 * TopDivisor && div == 0 ==> hi == v)
    && (v < 10 * TopDivisor ==> text == Decimal(hi) && (state <==> hi > 0))
    && (v >= 10 * TopDivisor && div < TopDivisor ==>
         v / TopDivisor < 22 && state && |text| > 0 && text[0] == DigitChar(v / TopDivisor))
  }

  /** The quotient of a pass is a digit, or at most 21 for the first. */
  lemma DigitBound(v: nat, div: nat, value: int, hi: nat, text: string, state: bool)
    requires DividerLoop(v, div, value, hi, text, state) && div >= 1
    ensures 0 <= value / div < 22
  {
    DigitStep(v, div, value, hi);
  }

  /** One pass of the divisor loop keeps DividerLoop. */
  lemma DividerStep(v: nat, div: nat, value: int, hi: nat, text: string, state: bool,
                    div': nat, value': int, hi': nat, text': string, state': bool)
    requires DividerLoop(v, div, value, hi, text, state) && div >= 1
    requires 0 <= value / div < 22
    requires div' == (if div == 1 then 0 else div / 10)
    requires value' == value - (value / div) * div && hi' == hi * 10 + value / div
    requires state' == (state || value / div > 0)
    requires text' == if state' then text + [DigitChar(value / div)] else text
    ensures DividerLoop(v, div', value', hi', text', state')
  {
    DigitStep(v, div, value, hi);
    if v < 10 * TopDivisor {
      DecimalStep(hi, value / div);
      if div == 1 {
        assert hi' == v / 1 == v;
      }
    } else {
      HugeStep(v, div, value, text, state);
    }
  }

  /** Past the oversized first digit, the text keeps starting with it. */
  lemma HugeStep(v: nat, div: nat, value: int, text: string, state: bool)
    requires 10 * TopDivisor <= v <= Int32Max && 0 < div <= TopDivisor
    requires div == TopDivisor ==> value == v && text == "" && !state
    requires div < TopDivisor ==> state && |text| > 0 && text[0] == DigitChar(v / TopDivisor)
    requires 0 <= value / div < 22
    requires div == TopDivisor ==> value / div == v / TopDivisor
    ensures v / TopDivisor < 22
    ensures var digit := value / div; var t := if state || digit > 0 then text + [DigitChar(digit)] else text;
      (state || digit > 0) && |t| > 0 && t[0] == DigitChar(v / TopDivisor)
  {
    TopStep(v);
  }

  /** The first step of the loop, at the top divisor. */
  lemma TopStep(v: nat)
    requires v <= Int32Max + 1
    ensures v / TopDivisor < 22
    ensures v - (v / TopDivisor) * TopDivisor == v % TopDivisor
    ensures v < 10 * TopDivisor ==> v / (10 * TopDivisor) == 0 && v / TopDivisor < 10
  {
  }

  /** What one pass of the divisor loop computes, in terms of `v`. */
  lemma DigitStep(v: nat, div: nat, value: nat, hi: nat)
    requires 0 < div <= TopDivisor && v <= Int32Max
    requires div == TopDivisor ==> value == v && hi == 0
    requires div < TopDivisor ==> value == v % (10 * div)
    requires v < 10 * TopDivisor ==> hi == v / (10 * div)
    ensures 0 <= value / div < 22
    ensures value - (value / div) * div == v % div
    ensures v < 10 * TopDivisor ==> hi * 10 + value / div == v / div && value / div < 10
    ensures div == TopDivisor ==> value / div == v / TopDivisor
  {
    if div == TopDivisor {
      TopStep(v);
    } else {
      StepDown(v, div);
    }
  }

  /** Appending a digit to the rendering of `hi`. */
  lemma DecimalStep(hi: nat, digit: nat)
    requires digit < 10
    ensures Decimal(hi * 10 + digit) == if hi * 10 + digit == 0 then "" else Decimal(hi) + [DigitChar(digit)]
  {
    var n := hi * 10 + digit;
    assert n / 10 == hi && n % 10 == digit;
  }

  /** The position of the first character of `s` found in `delimiters`
      (find_first_of). */
  function FirstOf(s: string, delimiters: string): (r: Option<nat>)
    ensures r.Some? ==> r.value < |s| && s[r.value] in delimiters
  {
    if s == [] then None
    else if s[0] in delimiters then Some(0)
    else match FirstOf(s[1..], delimiters)
      case None => None
      case Some(i) => Some(i + 1)
  }

  /** FirstOf finds a delimiter exactly when there is one, and no
      delimiter comes before the one it finds. */
  lemma {:induction false} FirstOfIsFirst(s: string, delimiters: string)
    ensures FirstOf(s, delimiters).None? <==> forall i :: 0 <= i < |s| ==> s[i] !in delimiters
    ensures FirstOf(s, delimiters).Some? ==>
      forall i :: 0 <= i < FirstOf(s, delimiters).value ==> s[i] !in delimiters
  {
    if s != [] && s[0] !in delimiters {
      FirstOfIsFirst(s[1..], delimiters);
      assert forall i :: 1 <= i < |s| ==> s[i] == s[1..][i - 1];
    }
  }

  /** The tokens of `s`: the pieces between delimiters, empty ones
      included, and the piece after the last delimiter if it is not
      empty. */
  function Split(s: string, delimiters: string): seq<string>
    decreases |s|
  {
    match FirstOf(s, delimiters)
    case None => if s == [] then [] else [s]
    case Some(p) => [s[..p]] + Split(s[p + 1..], delimiters)
  }

  /** No token holds a delimiter. */
  lemma {:induction false} SplitHasNoDelimiters(s: string, delimiters: string)
    ensures forall t, i :: t in Split(s, delimiters) && 0 <= i < |t| ==> t[i] !in delimiters
    decreases |s|
  {
    FirstOfIsFirst(s, delimiters);
    match FirstOf(s, delimiters)
    case None =>
    case Some(p) =>
      SplitHasNoDelimiters(s[p + 1..], delimiters);
      assert forall i :: 0 <= i < p ==> s[..p][i] == s[i];
  }

  /** The tokens joined with `sep` between them. */
  function Join(tokens: seq<string>, sep: char): string {
    if tokens == [] then ""
    else if |tokens| == 1 then tokens[0]
    else tokens[0] + [sep] + Join(tokens[1..], sep)
  }

  /** With one delimiter, joining the tokens gives the input back unless
      it ends with the delimiter, whose empty last piece is dropped. */
  lemma {:induction false} SplitJoinRoundTrip(s: string, d: char)
    requires s == [] || s[|s| - 1] != d
    ensures Join(Split(s, [d]), d) == s
    decreases |s|
  {
    match FirstOf(s, [d])
    case None =>
    case Some(p) =>
      var rest := s[p + 1..];
      assert p + 1 < |s|;
      assert rest != [] && rest[|rest| - 1] == s[|s| - 1];
      SplitJoinRoundTrip(rest, d);
      SplitNonEmpty(rest, [d]);
      JoinCons(s[..p], Split(rest, [d]), d);
      assert s == s[..p] + [d] + rest;
  }

  /** A non-empty text has at least one token. */
  lemma SplitNonEmpty(s: string, delimiters: string)
    requires s != []
    ensures Split(s, delimiters) != []
  {
  }

  /** Joining a token in front of further tokens puts a separator between. */
  lemma JoinCons(t: string, tail: seq<string>, sep: char)
    requires tail != []
    ensures Join([t] + tail, sep) == t + [sep] + Join(tail, sep)
  {
    assert ([t] + tail)[1..] == tail;
  }

  /** Without a delimiter the whole text is the one token, if any. */
  lemma SplitWithoutDelimiter(s: string, delimiters: string)
    requires FirstOf(s, delimiters).None?
    ensures Split(s, delimiters) == if s == [] then [] else [s]
  {
  }

  /** One token off the front of the suffix from `from`. */
  lemma SplitAtFirst(s: string, from: nat, delimiters: string)
    requires from <= |s| && FirstOf(s[from..], delimiters).Some?
    ensures var p := from + FirstOf(s[from..], delimiters).value;
      Split(s[from..], delimiters) == [s[from..p]] + Split(s[p + 1..], delimiters)
  {
    var rest := s[from..];
    var f := FirstOf(rest, delimiters).value;
    SplitUnfold(rest, delimiters);
    SliceOfSlice(s, from, f);
  }

  /** Slicing a suffix is slicing the whole. */
  lemma SliceOfSlice<T>(s: seq<T>, from: nat, f: nat)
    requires from + f < |s|
    ensures s[from..][f + 1..] == s[from + f + 1..] && s[from..][..f] == s[from..from + f]
  {
  }

  /** Split at a first delimiter, one step of its definition. */
  lemma SplitUnfold(s: string, delimiters: string)
    requires FirstOf(s, delimiters).Some?
    ensures var p := FirstOf(s, delimiters).value;
      p < |s| && Split(s, delimiters) == [s[..p]] + Split(s[p + 1..], delimiters)
  {
  }

  /** Moving the front token of the rest to the output keeps the whole. */
  lemma AppendToken(out: seq<string>, token: string, rest: seq<string>, whole: seq<string>)
    requires whole == [token] + rest
    ensures (out + [token]) + rest == out + whole
  {
  }

  /** Tokenize(input, delimiters, tokens): appends the tokens of `input` to
      `tokens`, which it does not clear. */
  method Tokenize(input: string, delimiters: string, tokens: seq<string>) returns (out: seq<string>)
    ensures out == tokens + Split(input, delimiters)
  {
    out := tokens;
    var lastPos := 0;
    while true
      invariant lastPos <= |input|
      invariant out + Split(input[lastPos..], delimiters) == tokens + Split(input, delimiters)
      decreases |input| - lastPos
    {
      var found := FirstOf(input[lastPos..], delimiters);
      if found.None? {
        var token := input[lastPos..];
        SplitWithoutDelimiter(token, delimiters);
        if token != [] {
          out := out + [token];
        }
        return;
      }
      var pos := lastPos + found.value;
      SplitAtFirst(input, lastPos, delimiters);
      AppendToken(out, input[lastPos..pos], Split(input[pos + 1..], delimiters), Split(input[lastPos..], delimiters));
      out := out + [input[lastPos..pos]];
      lastPos := pos + 1;
    }
  }

  /** RandomString(length, charset): `draws` are the successive rand()
      results. */
  method RandomString(length: nat, charset: string, draws: seq<nat>) returns (result: string)
    requires |charset| > 0 && |draws| >= length
    ensures |result| == length
    ensures forall i :: 0 <= i < length ==> result[i] == charset[draws[i] % |charset|]
    ensures forall i :: 0 <= i < length ==> result[i] in charset
  {
    result := seq(length, _ => '\0');
    var i := 0;
    while i < length
      invariant i <= length && |result| == length
      invariant forall j :: 0 <= j < i ==> result[j] == charset[draws[j] % |charset|]
    {
      result := result[i := charset[draws[i] % |charset|]];
      i := i + 1;
    }
  }
}
