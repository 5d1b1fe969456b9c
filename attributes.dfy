/**
 * The token-level helpers of parser.cpp: the three `starts*Attribute`
 * regexes, `getAttributeName`, and the numeric, string and vector value
 * extractors.
 *
 * Each regex becomes an explicit scan over characters: `[_a-zA-Z]`,
 * `[_a-zA-Z0-9]` and `\d` are character predicates, `.` matches every
 * character except a line terminator, and `regex_search` looks for the
 * leftmost position at which the pattern matches. `std::stof` becomes the
 * exact decimal value of the matched digit string.
 */
module Attributes {
  import opened Wrappers
  import opened Vectors

  /** The exceptions the parser throws, with the text each message carries. */
  datatype ParseError =
    | InvalidAttribute(token: string)
    | InvalidNumericAttribute(token: string)
    | InvalidStringAttribute(token: string)
    | InvalidVectorAttribute(token: string)
    | UnrecognizedVectorAttribute(name: string)
    | UnrecognizedNumericAttribute(name: string)
    | UnrecognizedStringAttribute(name: string)
    | UnrecognizedAttribute(attribute: string)
    | UnrecognizedObjectType(objectType: string)
    | MaterialNotFound(materialName: string)

  // ---------------------------------------------------------------- characters

  /** `[_a-zA-Z]`. */
  predicate IsIdentStart(c: char) { c == '_' || 'a' <= c <= 'z' || 'A' <= c <= 'Z' }

  /** `\d`. */
  predicate IsDigit(c: char) { '0' <= c <= '9' }

  /** `[_a-zA-Z0-9]`. */
  predicate IsIdentChar(c: char) { IsIdentStart(c) || IsDigit(c) }

  /** The characters `.` does not match. */
  predicate IsLineTerminator(c: char) { c == '\n' || c == '\r' }

  predicate NoLineTerminator(s: string) { forall i :: 0 <= i < |s| ==> !IsLineTerminator(s[i]) }

  /** `[_a-zA-Z][_a-zA-Z0-9]*`. */
  predicate IsIdentifier(s: string)
  {
    |s| > 0 && IsIdentStart(s[0]) && forall i :: 1 <= i < |s| ==> IsIdentChar(s[i])
  }

  predicate AllDigits(s: string) { forall i :: 0 <= i < |s| ==> IsDigit(s[i]) }

  /** The end of the longest run of identifier characters starting at `i`. */
  function IdentEnd(t: string, i: nat): (e: nat)
    requires i <= |t|
    ensures i <= e <= |t|
    ensures forall j :: i <= j < e ==> IsIdentChar(t[j])
    ensures e == |t| || !IsIdentChar(t[e])
    decreases |t| - i
  {
    if i < |t| && IsIdentChar(t[i]) then IdentEnd(t, i + 1) else i
  }

  /** The end of the longest run of digits starting at `i`. */
  function DigitsEnd(t: string, i: nat): (e: nat)
    requires i <= |t|
    ensures i <= e <= |t|
    ensures e == |t| || !IsDigit(t[e])
    decreases |t| - i
  {
    if i < |t| && IsDigit(t[i]) then DigitsEnd(t, i + 1) else i
  }

  /** Everything `DigitsEnd` skips over is a digit. */
  lemma {:induction false} DigitsEndDigits(t: string, i: nat)
    requires i <= |t|
    ensures forall j :: i <= j < DigitsEnd(t, i) ==> IsDigit(t[j])
    decreases |t| - i
  {
    if i < |t| && IsDigit(t[i]) {
      DigitsEndDigits(t, i + 1);
    }
  }

  /** A run of identifier characters ending at a non-identifier character ends exactly there. */
  lemma IdentEndAt(t: string, i: nat, k: nat)
    requires i <= k < |t| && !IsIdentChar(t[k])
    requires forall j :: i <= j < k ==> IsIdentChar(t[j])
    ensures IdentEnd(t, i) == k
    decreases k - i
  {
    if i < k {
      IdentEndAt(t, i + 1, k);
    }
  }

  // ---------------------------------------------------------------- attribute classes

  /**
   * `^SIGIL[_a-zA-Z][_a-zA-Z0-9]*:.*` matched against the whole token: the
   * sigil, an identifier, a colon right after it, and no line terminator in
   * the rest.
   */
  predicate StartsWithSigil(t: string, sigil: string)
  {
    && |t| > |sigil|
    && t[..|sigil|] == sigil
    && IsIdentStart(t[|sigil|])
    && var e := IdentEnd(t, |sigil| + 1);
       e < |t| && t[e] == ':' && NoLineTerminator(t[e + 1..])
  }

  /** `startsNumericAttribute`. */
  predicate StartsNumericAttribute(t: string) { StartsWithSigil(t, "") }

  /** `startsVectorAttribute`. */
  predicate StartsVectorAttribute(t: string) { StartsWithSigil(t, "->") }

  /** `startsStringAttribute`. */
  predicate StartsStringAttribute(t: string) { StartsWithSigil(t, "$") }

  /** `startsAttribute`: any of the three. */
  predicate StartsAttribute(t: string)
  {
    StartsNumericAttribute(t) || StartsStringAttribute(t) || StartsVectorAttribute(t)
  }

  /** The pattern read declaratively: `t` splits as sigil, identifier, `:` and a rest without line terminators. */
  ghost predicate MatchesSigilPattern(t: string, sigil: string)
  {
    exists k :: |sigil| < k < |t| && t[k] == ':' && t[..|sigil|] == sigil &&
      IsIdentifier(t[|sigil|..k]) && NoLineTerminator(t[k + 1..])
  }

  /** The scan accepts exactly the tokens the pattern describes. */
  lemma StartsWithSigilIff(t: string, sigil: string)
    ensures StartsWithSigil(t, sigil) <==> MatchesSigilPattern(t, sigil)
  {
    if StartsWithSigil(t, sigil) {
      var k := IdentEnd(t, |sigil| + 1);
      assert IsIdentifier(t[|sigil|..k]);
    }
    if MatchesSigilPattern(t, sigil) {
      var k :| |sigil| < k < |t| && t[k] == ':' && t[..|sigil|] == sigil &&
        IsIdentifier(t[|sigil|..k]) && NoLineTerminator(t[k + 1..]);
      assert IsIdentStart(t[|sigil|..k][0]);
      forall j | |sigil| + 1 <= j < k
        ensures IsIdentChar(t[j])
      {
        assert t[j] == t[|sigil|..k][j - |sigil|];
      }
      IdentEndAt(t, |sigil| + 1, k);
    }
  }

  /** The three classes are mutually exclusive, told apart by the first character. */
  lemma AttributeClassesDisjoint(t: string)
    ensures StartsNumericAttribute(t) ==> IsIdentStart(t[0])
    ensures StartsVectorAttribute(t) ==> t[0] == '-'
    ensures StartsStringAttribute(t) ==> t[0] == '$'
    ensures !(StartsNumericAttribute(t) && StartsVectorAttribute(t))
    ensures !(StartsNumericAttribute(t) && StartsStringAttribute(t))
    ensures !(StartsVectorAttribute(t) && StartsStringAttribute(t))
  {
    if StartsVectorAttribute(t) {
      assert t[..2] == "->";
      assert t[0] == '-';
    }
    if StartsStringAttribute(t) {
      assert t[..1] == "$";
      assert t[0] == '$';
    }
  }

  /** Appending text without line terminators keeps a token in its class: the patterns end in `.*`. */
  lemma StartsWithSigilAppend(t: string, sigil: string, s: string)
    requires StartsWithSigil(t, sigil) && NoLineTerminator(s)
    ensures StartsWithSigil(t + s, sigil)
  {
    var u := t + s;
    assert u[..|sigil|] == t[..|sigil|];
    var e := IdentEnd(t, |sigil| + 1);
    forall j | |sigil| + 1 <= j < e
      ensures IsIdentChar(u[j])
    {
      assert u[j] == t[j];
    }
    IdentEndAt(u, |sigil| + 1, e);
    assert u[e + 1..] == t[e + 1..] + s;
  }

  lemma StartsAttributeAppend(t: string, s: string)
    requires StartsAttribute(t) && NoLineTerminator(s)
    ensures StartsAttribute(t + s)
    ensures StartsNumericAttribute(t + s) == StartsNumericAttribute(t)
    ensures StartsVectorAttribute(t + s) == StartsVectorAttribute(t)
    ensures StartsStringAttribute(t + s) == StartsStringAttribute(t)
  {
    AttributeClassesDisjoint(t);
    AttributeClassesDisjoint(t + s);
    if StartsNumericAttribute(t) {
      StartsWithSigilAppend(t, "", s);
    } else if StartsVectorAttribute(t) {
      StartsWithSigilAppend(t, "->", s);
    } else {
      StartsWithSigilAppend(t, "$", s);
    }
  }

  // ---------------------------------------------------------------- names

  /** An attribute name: an optional `$` or `->` followed by an identifier. */
  predicate IsAttributeName(n: string)
  {
    || IsIdentifier(n)
    || (|n| > 0 && n[0] == '$' && IsIdentifier(n[1..]))
    || (|n| > 1 && n[..2] == "->" && IsIdentifier(n[2..]))
  }

  /**
   * `getAttributeName`: `^((?:\$|->)?[_a-zA-Z][_a-zA-Z0-9]*)` searched in
   * the token. The sigil is tried first; the identifier is taken as long as
   * possible.
   */
  function AttributeName(t: string): (r: Result<string, ParseError>)
    ensures r.Err? <==> !(|t| > 0 && IsIdentStart(t[0])) && !(|t| > 1 && t[0] == '$' && IsIdentStart(t[1]))
                         && !(|t| > 2 && t[..2] == "->" && IsIdentStart(t[2]))
    ensures r.Err? ==> r.error == InvalidAttribute(t)
    ensures r.Ok? ==> IsAttributeName(r.value) && 0 < |r.value| <= |t| && t[..|r.value|] == r.value
    ensures r.Ok? ==> |r.value| == |t| || !IsIdentChar(t[|r.value|])
  {
    if |t| > 1 && t[0] == '$' && IsIdentStart(t[1]) then
      var e := IdentEnd(t, 2);
      assert t[..e][1..] == t[1..e];
      Ok(t[..e])
    else if |t| > 2 && t[..2] == "->" && IsIdentStart(t[2]) then
      var e := IdentEnd(t, 3);
      assert t[..e][..2] == t[..2] && t[..e][2..] == t[2..e];
      Ok(t[..e])
    else if |t| > 0 && IsIdentStart(t[0]) then
      Ok(t[..IdentEnd(t, 1)])
    else
      Err(InvalidAttribute(t))
  }

  /** For a token that starts an attribute, the name is its sigil and identifier, and a colon follows. */
  lemma AttributeNameOfAttribute(t: string)
    requires StartsAttribute(t)
    ensures AttributeName(t).Ok?
    ensures var n := AttributeName(t).value; |n| < |t| && t[|n|] == ':'
    ensures StartsNumericAttribute(t) ==> IsIdentifier(AttributeName(t).value)
    ensures StartsVectorAttribute(t) ==> AttributeName(t).value[..2] == "->"
    ensures StartsStringAttribute(t) ==> AttributeName(t).value[0] == '$'
  {
    AttributeClassesDisjoint(t);
    if StartsVectorAttribute(t) {
      assert t[..2] == "->";
    }
    if StartsStringAttribute(t) {
      assert t[..1] == "$";
    }
  }

  // ---------------------------------------------------------------- numbers

  /** The value of a string of decimal digits. */
  function DigitsValue(ds: string): int
  {
    if |ds| == 0 then 0 else DigitsValue(ds[..|ds| - 1]) * 10 + (ds[|ds| - 1] as int - '0' as int)
  }

  function Pow10(n: nat): (p: nat)
    ensures p >= 1
  {
    if n == 0 then 1 else 10 * Pow10(n - 1)
  }

  /** The decimal digits of `n`, most significant first, with no leading zero. */
  function NatDigits(n: nat): (ds: string)
    ensures |ds| > 0 && AllDigits(ds)
    ensures DigitsValue(ds) == n
  {
    var d := ['0' + (n % 10) as char];
    if n < 10 then
      d
    else
      var prefix := NatDigits(n / 10);
      assert (prefix + d)[..|prefix + d| - 1] == prefix;
      prefix + d
  }

  /** The value of the digits after a decimal point: `fs / 10^|fs|`. */
  function FractionValue(fs: string): real
  {
    DigitsValue(fs) as real / Pow10(|fs|) as real
  }

  /** A digit at `i`: where `\d+(?:\.\d+)?` can start. */
  predicate DigitAt(t: string, i: int) { 0 <= i < |t| && IsDigit(t[i]) }

  /**
   * `t[i..e]` is what the greedy `\d+(?:\.\d+)?` takes at `i`, with the
   * integer part ending at `d`: the integer part is a maximal run of digits,
   * the fraction is there exactly when a digit follows a `.` at `d`, and then
   * it is a maximal run of digits after the dot.
   */
  predicate NumeralSplit(t: string, i: nat, d: nat, e: nat)
  {
    && i < d <= e <= |t|
    && (forall j :: i <= j < d ==> IsDigit(t[j]))
    && (d == |t| || !IsDigit(t[d]))
    && if d + 1 < |t| && t[d] == '.' && IsDigit(t[d + 1]) then
         && d + 1 < e
         && (forall j :: d + 1 <= j < e ==> IsDigit(t[j]))
         && (e == |t| || !IsDigit(t[e]))
       else e == d
  }

  /** The end of `\d+(?:\.\d+)?` anchored at `i`, as the regex engine takes it. */
  function NumeralEnd(t: string, i: nat): (e: nat)
    requires DigitAt(t, i)
    ensures i < e <= |t| && (e == |t| || !IsDigit(t[e]))
  {
    var d := DigitsEnd(t, i);
    if d + 1 < |t| && t[d] == '.' && IsDigit(t[d + 1]) then DigitsEnd(t, d + 1) else d
  }

  /** `NumeralEnd` is the greedy match: a maximal integer part, then a maximal fraction when a digit follows the dot. */
  lemma NumeralEndSplit(t: string, i: nat)
    requires DigitAt(t, i)
    ensures exists d :: NumeralSplit(t, i, d, NumeralEnd(t, i))
  {
    var d := DigitsEnd(t, i);
    DigitsEndDigits(t, i);
    if d + 1 < |t| && t[d] == '.' && IsDigit(t[d + 1]) {
      DigitsEndDigits(t, d + 1);
    }
    assert NumeralSplit(t, i, d, NumeralEnd(t, i));
  }

  /** The greedy split is unique, so `NumeralEnd`'s contract fixes its result. */
  lemma NumeralSplitUnique(t: string, i: nat, d: nat, e: nat, d': nat, e': nat)
    requires NumeralSplit(t, i, d, e) && NumeralSplit(t, i, d', e')
    ensures d == d' && e == e'
  {
  }

  /** `stof` of the numeral at `i`, as the exact decimal it denotes. */
  function NumeralValue(t: string, i: nat): real
    requires DigitAt(t, i)
  {
    var d := DigitsEnd(t, i);
    if d + 1 < |t| && t[d] == '.' && IsDigit(t[d + 1]) then
      var f := DigitsEnd(t, d + 1);
      DigitsValue(t[i..d]) as real + FractionValue(t[d + 1..f])
    else
      DigitsValue(t[i..d]) as real
  }

  /** `t` has a colon at `j` followed by a digit: where `:(\d+(?:\.\d+)?)` can match. */
  predicate NumericAt(t: string, j: int)
  {
    0 <= j < |t| && t[j] == ':' && DigitAt(t, j + 1)
  }

  /** The leftmost position at or after `i` where `:(\d+(?:\.\d+)?)` matches. */
  function NumericMatch(t: string, i: nat): (r: Option<nat>)
    requires i <= |t|
    ensures r.None? ==> forall j :: i <= j < |t| ==> !NumericAt(t, j)
    ensures r.Some? ==> i <= r.value < |t| && NumericAt(t, r.value) && forall k :: i <= k < r.value ==> !NumericAt(t, k)
    decreases |t| - i
  {
    if i == |t| then None
    else if NumericAt(t, i) then Some(i)
    else NumericMatch(t, i + 1)
  }

  /** `getNumericAttributeValue`: `stof` of the numeral after the leftmost match. */
  function NumericValue(t: string): Result<real, ParseError>
  {
    match NumericMatch(t, 0)
    case Some(j) => Ok(NumeralValue(t, j + 1))
    case None => Err(InvalidNumericAttribute(t))
  }

  /** `t` has `:"` at `j`, a `"` that ends the token, and no line terminator in between. */
  predicate StringAt(t: string, j: int)
  {
    0 <= j && j + 2 < |t| && t[j] == ':' && t[j + 1] == '"' && t[|t| - 1] == '"' && NoLineTerminator(t[j + 2..|t| - 1])
  }

  /** The leftmost position at or after `i` where `:"(.*?)"$` matches. */
  function StringMatch(t: string, i: nat): (r: Option<nat>)
    requires i <= |t|
    ensures r.None? ==> forall j :: i <= j < |t| ==> !StringAt(t, j)
    ensures r.Some? ==> i <= r.value < |t| && StringAt(t, r.value) && forall k :: i <= k < r.value ==> !StringAt(t, k)
    decreases |t| - i
  {
    if i == |t| then None
    else if StringAt(t, i) then Some(i)
    else StringMatch(t, i + 1)
  }

  /** `getStringAttributeValue`: the group of the leftmost match, up to the final quote. */
  function StringValue(t: string): Result<string, ParseError>
  {
    match StringMatch(t, 0)
    case Some(j) => Ok(t[j + 2..|t| - 1])
    case None => Err(InvalidStringAttribute(t))
  }

  /** The end of a numeral at `i` when the character `sep` follows it. */
  function NumeralThen(t: string, i: nat, sep: char): (r: Option<nat>)
    ensures r.Some? ==> DigitAt(t, i) && r.value == NumeralEnd(t, i) && r.value < |t| && t[r.value] == sep
  {
    if DigitAt(t, i) && NumeralEnd(t, i) < |t| && t[NumeralEnd(t, i)] == sep then Some(NumeralEnd(t, i)) else None
  }

  /** Where the three numerals of a vector match end: at the two commas and at the closing parenthesis. */
  datatype VectorShape = VectorShape(end1: nat, end2: nat, end3: nat)

  /** `:\((n),(n),(n)\)` anchored at `j`, each `n` being `\d+(?:\.\d+)?`. */
  function VectorAt(t: string, j: nat): (r: Option<VectorShape>)
    ensures r.Some? ==> DigitAt(t, j + 2) && DigitAt(t, r.value.end1 + 1) && DigitAt(t, r.value.end2 + 1)
  {
    if j + 1 < |t| && t[j] == ':' && t[j + 1] == '(' then
      match NumeralThen(t, j + 2, ',')
      case None => None
      case Some(e1) =>
        match NumeralThen(t, e1 + 1, ',')
        case None => None
        case Some(e2) =>
          match NumeralThen(t, e2 + 1, ')')
          case None => None
          case Some(e3) => Some(VectorShape(e1, e2, e3))
    else None
  }

  /** The leftmost position at or after `i` where the vector pattern matches. */
  function VectorMatch(t: string, i: nat): (r: Option<nat>)
    requires i <= |t|
    ensures r.None? ==> forall j :: i <= j <= |t| ==> VectorAt(t, j).None?
    ensures r.Some? ==> i <= r.value <= |t| && VectorAt(t, r.value).Some? &&
                        forall k :: i <= k < r.value ==> VectorAt(t, k).None?
    decreases |t| - i
  {
    if VectorAt(t, i).Some? then Some(i)
    else if i == |t| then None
    else VectorMatch(t, i + 1)
  }

  /** The vector read from a match at `j`: `stof` of each of its three numerals. */
  function VectorValueAt(t: string, j: nat): Vec3
    requires VectorAt(t, j).Some?
  {
    var shape := VectorAt(t, j).value;
    Vec3(NumeralValue(t, j + 2), NumeralValue(t, shape.end1 + 1), NumeralValue(t, shape.end2 + 1))
  }

  /** `getVectorAttributeValue`: the vector of the leftmost match. */
  function VectorValue(t: string): Result<Vec3, ParseError>
  {
    match VectorMatch(t, 0)
    case Some(j) => Ok(VectorValueAt(t, j))
    case None => Err(InvalidVectorAttribute(t))
  }

  // ---------------------------------------------------------------- values of well-formed tokens

  /** An attribute name has no colon in it. */
  lemma NameHasNoColon(n: string)
    requires IsAttributeName(n)
    ensures forall i :: 0 <= i < |n| ==> n[i] != ':'
  {
    forall i | 0 <= i < |n|
      ensures n[i] != ':'
    {
      if IsIdentifier(n) {
      } else if |n| > 0 && n[0] == '$' && IsIdentifier(n[1..]) {
        if i > 0 { assert n[i] == n[1..][i - 1]; }
      } else {
        assert n[..2] == "->";
        if i > 1 { assert n[i] == n[2..][i - 2]; }
        if i < 2 { assert n[i] == n[..2][i]; }
      }
    }
  }

  /** Nothing before the end of an attribute name is a colon, whatever follows the name. */
  lemma PrefixHasNoColon(name: string, rest: string)
    requires IsAttributeName(name)
    ensures forall k :: 0 <= k < |name| ==> (name + rest)[k] != ':'
  {
    NameHasNoColon(name);
    assert forall k :: 0 <= k < |name| ==> (name + rest)[k] == name[k];
  }

  lemma DigitsEndAt(t: string, i: nat, ds: string)
    requires AllDigits(ds) && i + |ds| <= |t| && t[i..i + |ds|] == ds
    requires i + |ds| == |t| || !IsDigit(t[i + |ds|])
    ensures DigitsEnd(t, i) == i + |ds|
    decreases |ds|
  {
    if |ds| > 0 {
      assert t[i] == ds[0];
      assert t[i + 1..i + 1 + |ds[1..]|] == ds[1..];
      DigitsEndAt(t, i + 1, ds[1..]);
    }
  }

  /** A digit string that ends the token, or is followed by a non-digit other than `.`, is a numeral of its value. */
  lemma NumeralOfDigits(t: string, i: nat, ds: string)
    requires |ds| > 0 && AllDigits(ds) && i + |ds| <= |t| && t[i..i + |ds|] == ds
    requires i + |ds| == |t| || (!IsDigit(t[i + |ds|]) && t[i + |ds|] != '.')
    ensures DigitAt(t, i) && NumeralEnd(t, i) == i + |ds| && NumeralValue(t, i) == DigitsValue(ds) as real
  {
    assert IsDigit(t[i]) by { assert t[i] == ds[0]; }
    DigitsEndAt(t, i, ds);
    var d := DigitsEnd(t, i);
    assert !(d + 1 < |t| && t[d] == '.');
    assert NumeralValue(t, i) == DigitsValue(t[i..d]) as real;
  }

  /** Where the two digit runs of `ip.fp` end, when it ends the token. */
  lemma DecimalDigitsEnds(t: string, i: nat, ip: string, fp: string)
    requires |ip| > 0 && AllDigits(ip) && |fp| > 0 && AllDigits(fp)
    requires i + |ip| + 1 + |fp| == |t| && t[i..i + |ip|] == ip && t[i + |ip|] == '.' && t[i + |ip| + 1..] == fp
    ensures DigitAt(t, i) && DigitAt(t, i + |ip| + 1)
    ensures DigitsEnd(t, i) == i + |ip| && DigitsEnd(t, i + |ip| + 1) == |t|
  {
    var e := i + |ip|;
    assert IsDigit(t[i]) by { assert t[i] == ip[0]; }
    DigitsEndAt(t, i, ip);
    assert t[e + 1] == fp[0];
    assert t[e + 1..e + 1 + |fp|] == fp;
    DigitsEndAt(t, e + 1, fp);
  }

  /** `ip.fp` ending the token is a numeral of value `ip + fp / 10^|fp|`. */
  lemma NumeralOfDecimal(t: string, i: nat, ip: string, fp: string)
    requires |ip| > 0 && AllDigits(ip) && |fp| > 0 && AllDigits(fp)
    requires i + |ip| + 1 + |fp| == |t| && t[i..i + |ip|] == ip && t[i + |ip|] == '.' && t[i + |ip| + 1..] == fp
    ensures DigitAt(t, i) && NumeralEnd(t, i) == |t|
    ensures NumeralValue(t, i) == DigitsValue(ip) as real + FractionValue(fp)
  {
    DecimalDigitsEnds(t, i, ip, fp);
    var e := i + |ip|;
    assert t[e + 1..|t|] == fp;
  }

  /** A match at `j` with no colon before it is the leftmost numeric match. */
  lemma LeftmostNumeric(t: string, j: nat)
    requires NumericAt(t, j)
    requires forall k :: 0 <= k < j ==> t[k] != ':'
    ensures NumericMatch(t, 0) == Some(j)
  {
  }

  /** The slices of the token `name:ds`. */
  lemma NumericTokenSlices(name: string, ds: string)
    ensures var t := name + ":" + ds;
      t[|name|] == ':' && |t| == |name| + 1 + |ds| && t[|name| + 1..|name| + 1 + |ds|] == ds
  {
    var t := name + ":" + ds;
    assert t[|name| + 1..] == ds;
  }

  /** A numeric token written as `name:n` reads back as `n`. */
  lemma NumericRoundTrip(name: string, n: nat)
    requires IsAttributeName(name)
    ensures NumericValue(name + ":" + NatDigits(n)) == Ok(n as real)
  {
    var ds := NatDigits(n);
    var t := name + ":" + ds;
    NumericTokenSlices(name, ds);
    PrefixHasNoColon(name, ":" + ds);
    assert t == name + (":" + ds);
    NumeralOfDigits(t, |name| + 1, ds);
    LeftmostNumeric(t, |name|);
  }

  /** The pieces of `name:ip.fp` with the numeral at `i`, and no colon before the one at `i - 1`. */
  predicate DecimalPieces(t: string, i: nat, ip: string, fp: string)
  {
    && 0 < i && i + |ip| + 1 + |fp| == |t| && t[i - 1] == ':'
    && t[i..i + |ip|] == ip && t[i + |ip|] == '.' && t[i + |ip| + 1..] == fp
    && forall k :: 0 <= k < i - 1 ==> t[k] != ':'
  }

  /** The pieces of the token `name:ip.fp`. */
  lemma DecimalTokenSlices(name: string, ip: string, fp: string)
    requires IsAttributeName(name)
    ensures DecimalPieces(name + ":" + ip + "." + fp, |name| + 1, ip, fp)
  {
    var t := name + ":" + ip + "." + fp;
    PrefixHasNoColon(name, ":" + ip + "." + fp);
    assert t == name + (":" + ip + "." + fp);
    var i := |name| + 1;
    assert t[i..i + |ip|] == ip;
    assert t[i + |ip| + 1..] == fp;
  }

  /** A token with the pieces of `name:ip.fp` reads as `ip + fp / 10^|fp|`. */
  lemma DecimalValueOfPieces(t: string, i: nat, ip: string, fp: string)
    requires DecimalPieces(t, i, ip, fp)
    requires |ip| > 0 && AllDigits(ip) && |fp| > 0 && AllDigits(fp)
    ensures NumericValue(t) == Ok(DigitsValue(ip) as real + FractionValue(fp))
  {
    NumeralOfDecimal(t, i, ip, fp);
    LeftmostNumeric(t, i - 1);
  }

  /** A numeric token `name:ip.fp` reads as `ip + fp / 10^|fp|`. */
  lemma DecimalRoundTrip(name: string, ip: string, fp: string)
    requires IsAttributeName(name) && |ip| > 0 && AllDigits(ip) && |fp| > 0 && AllDigits(fp)
    ensures NumericValue(name + ":" + ip + "." + fp) == Ok(DigitsValue(ip) as real + FractionValue(fp))
  {
    DecimalTokenSlices(name, ip, fp);
    DecimalValueOfPieces(name + ":" + ip + "." + fp, |name| + 1, ip, fp);
  }

  /** No sign is accepted: `i:-3` is rejected. */
  lemma NegativeRejected()
    ensures NumericValue("i:-3") == Err(InvalidNumericAttribute("i:-3"))
  {
    var t := "i:-3";
    assert !NumericAt(t, 0) && !NumericAt(t, 1) && !NumericAt(t, 2) && !NumericAt(t, 3);
  }

  /** A string token written as `name:"s"` reads back as `s`, whatever quotes or colons `s` holds. */
  lemma StringRoundTrip(name: string, s: string)
    requires IsAttributeName(name) && NoLineTerminator(s)
    ensures StringValue(name + ":\"" + s + "\"") == Ok(s)
  {
    var t := name + ":\"" + s + "\"";
    var j := |name|;
    NameHasNoColon(name);
    forall k | 0 <= k < j
      ensures !StringAt(t, k)
    {
      assert t[k] == name[k];
    }
    assert t[j + 2..|t| - 1] == s;
    assert StringAt(t, j);
  }

  /** A digit string followed by a separator that is neither a digit nor a dot is a numeral ending there. */
  lemma NumeralBefore(t: string, i: nat, ds: string, sep: char)
    requires |ds| > 0 && AllDigits(ds) && !IsDigit(sep) && sep != '.'
    requires i + |ds| < |t| && t[i..i + |ds|] == ds && t[i + |ds|] == sep
    ensures NumeralThen(t, i, sep) == Some(i + |ds|)
  {
    NumeralOfDigits(t, i, ds);
  }

  /** A match at `j` with no colon before it is the leftmost vector match. */
  lemma LeftmostVector(t: string, j: nat)
    requires j <= |t| && VectorAt(t, j).Some?
    requires forall k :: 0 <= k < j ==> t[k] != ':'
    ensures VectorMatch(t, 0) == Some(j)
  {
    assert forall k :: 0 <= k < j ==> VectorAt(t, k).None?;
  }

  /** The pieces of `name:(a,b,c)` at `j`. */
  predicate VectorSlices(t: string, j: nat, da: string, db: string, dc: string)
  {
    var e1 := j + 2 + |da|;
    var e2 := e1 + 1 + |db|;
    var e3 := e2 + 1 + |dc|;
    && e3 < |t| && t[j] == ':' && t[j + 1] == '('
    && t[j + 2..e1] == da && t[e1] == ',' && t[e1 + 1..e2] == db && t[e2] == ','
    && t[e2 + 1..e3] == dc && t[e3] == ')'
  }

  /** The pieces of `name:(a,b,c)` at `j`, and no colon before `j`. */
  predicate VectorPieces(t: string, j: nat, da: string, db: string, dc: string)
  {
    VectorSlices(t, j, da, db, dc) && forall k :: 0 <= k < j ==> t[k] != ':'
  }

  lemma VectorTokenSlices(name: string, da: string, db: string, dc: string)
    requires IsAttributeName(name)
    ensures VectorPieces(name + ":(" + da + "," + db + "," + dc + ")", |name|, da, db, dc)
  {
    var rest := ":(" + da + "," + db + "," + dc + ")";
    var t := name + ":(" + da + "," + db + "," + dc + ")";
    assert t == name + rest;
    PrefixHasNoColon(name, rest);
    var j := |name|;
    var e1 := j + 2 + |da|;
    var e2 := e1 + 1 + |db|;
    var e3 := e2 + 1 + |dc|;
    assert t[j + 2..e1] == da;
    assert t[e1 + 1..e2] == db;
    assert t[e2 + 1..e3] == dc;
  }

  /** A token with the pieces of `name:(a,b,c)` at `j` matches the vector pattern there. */
  lemma VectorAtPieces(t: string, j: nat, da: string, db: string, dc: string)
    requires VectorSlices(t, j, da, db, dc)
    requires |da| > 0 && AllDigits(da) && |db| > 0 && AllDigits(db) && |dc| > 0 && AllDigits(dc)
    ensures var e1 := j + 2 + |da|; var e2 := e1 + 1 + |db|;
      VectorAt(t, j) == Some(VectorShape(e1, e2, e2 + 1 + |dc|))
  {
    var e1 := j + 2 + |da|;
    var e2 := e1 + 1 + |db|;
    NumeralBefore(t, j + 2, da, ',');
    NumeralBefore(t, e1 + 1, db, ',');
    NumeralBefore(t, e2 + 1, dc, ')');
  }

  /** The three numerals of a token with the pieces of `name:(a,b,c)` read as digit values. */
  lemma VectorValuesOfPieces(t: string, j: nat, da: string, db: string, dc: string)
    requires VectorPieces(t, j, da, db, dc)
    requires |da| > 0 && AllDigits(da) && |db| > 0 && AllDigits(db) && |dc| > 0 && AllDigits(dc)
    ensures VectorAt(t, j).Some?
    ensures VectorValueAt(t, j) == Vec3(DigitsValue(da) as real, DigitsValue(db) as real, DigitsValue(dc) as real)
  {
    var e1 := j + 2 + |da|;
    var e2 := e1 + 1 + |db|;
    VectorAtPieces(t, j, da, db, dc);
    NumeralOfDigits(t, j + 2, da);
    NumeralOfDigits(t, e1 + 1, db);
    NumeralOfDigits(t, e2 + 1, dc);
  }

  /** A token with the pieces of `name:(a,b,c)` reads as the digit values. */
  lemma VectorValueOfPieces(t: string, j: nat, da: string, db: string, dc: string)
    requires VectorPieces(t, j, da, db, dc)
    requires |da| > 0 && AllDigits(da) && |db| > 0 && AllDigits(db) && |dc| > 0 && AllDigits(dc)
    ensures VectorValue(t) == Ok(Vec3(DigitsValue(da) as real, DigitsValue(db) as real, DigitsValue(dc) as real))
  {
    VectorValuesOfPieces(t, j, da, db, dc);
    LeftmostVector(t, j);
  }

  /** A vector token `name:(a,b,c)` with digit strings `a`, `b`, `c` reads as their values. */
  lemma VectorDigits(name: string, da: string, db: string, dc: string)
    requires IsAttributeName(name)
    requires |da| > 0 && AllDigits(da) && |db| > 0 && AllDigits(db) && |dc| > 0 && AllDigits(dc)
    ensures VectorValue(name + ":(" + da + "," + db + "," + dc + ")")
         == Ok(Vec3(DigitsValue(da) as real, DigitsValue(db) as real, DigitsValue(dc) as real))
  {
    VectorTokenSlices(name, da, db, dc);
    VectorValueOfPieces(name + ":(" + da + "," + db + "," + dc + ")", |name|, da, db, dc);
  }

  /** A vector token written as `name:(a,b,c)` reads back as `(a, b, c)`. */
  lemma VectorRoundTrip(name: string, a: nat, b: nat, c: nat)
    requires IsAttributeName(name)
    ensures VectorValue(name + ":(" + NatDigits(a) + "," + NatDigits(b) + "," + NatDigits(c) + ")")
         == Ok(Vec3(a as real, b as real, c as real))
  {
    VectorDigits(name, NatDigits(a), NatDigits(b), NatDigits(c));
  }
}
