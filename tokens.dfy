/**
 * The first half of `parseLine` in parser.cpp: the line is split into
 * whitespace-separated tokens (`ss >> token`), the first token is the object
 * type, and the remaining tokens are condensed into attributes. A token that
 * starts an attribute opens a new one; any other token is glued, with no
 * separator, onto the attribute being collected. The collection starts at the
 * sentinel text `NOT_STARTED`, so a stray token before the first attribute
 * produces an attribute that begins with the sentinel.
 */
module LineSyntax {
  import opened Attributes

  /** `isspace` in the "C" locale, which `operator>>` uses to delimit a token. */
  predicate IsSpace(c: char)
  {
    c == ' ' || c == '\t' || c == '\n' || c == '\r' || c as int == 0x0B || c as int == 0x0C
  }

  predicate NoSpace(s: string) { forall i :: 0 <= i < |s| ==> !IsSpace(s[i]) }

  /** The end of the run of non-whitespace characters starting at `i`. */
  function WordEnd(s: string, i: nat): (e: nat)
    requires i <= |s|
    ensures i <= e <= |s|
    ensures forall j :: i <= j < e ==> !IsSpace(s[j])
    ensures e == |s| || IsSpace(s[e])
    decreases |s| - i
  {
    if i == |s| || IsSpace(s[i]) then i else WordEnd(s, i + 1)
  }

  /** The tokens that repeated `ss >> token` extracts from `s`, starting at position `i`. */
  function TokensFrom(s: string, i: nat): seq<string>
    requires i <= |s|
    decreases |s| - i
  {
    if i == |s| then []
    else if IsSpace(s[i]) then TokensFrom(s, i + 1)
    else [s[i..WordEnd(s, i)]] + TokensFrom(s, WordEnd(s, i))
  }

  function Tokens(s: string): seq<string> { TokensFrom(s, 0) }

  /** The concatenation of a sequence of strings. */
  function Concat(ss: seq<string>): string
  {
    if |ss| == 0 then [] else Concat(ss[..|ss| - 1]) + ss[|ss| - 1]
  }

  /** The characters of `s` that are not whitespace, in order. */
  function NonSpace(s: string): string
  {
    if |s| == 0 then [] else NonSpace(s[..|s| - 1]) + (if IsSpace(s[|s| - 1]) then [] else [s[|s| - 1]])
  }

  /** A run of non-whitespace characters scanned from `i` ends at `WordEnd`. */
  lemma WordEndAt(s: string, i: nat, j: nat)
    requires i <= j <= |s|
    requires forall k :: i <= k < j ==> !IsSpace(s[k])
    requires j == |s| || IsSpace(s[j])
    ensures WordEnd(s, i) == j
    decreases j - i
  {
    if i < j {
      WordEndAt(s, i + 1, j);
    }
  }

  /**
   * The token loop of `parseLine`: skip whitespace, read one token up to the
   * next whitespace, push it, and repeat to the end of the line.
   */
  method SplitTokens(line: string) returns (tokens: seq<string>)
    ensures tokens == Tokens(line)
  {
    tokens := [];
    var i := 0;
    while i < |line|
      invariant 0 <= i <= |line|
      invariant tokens + TokensFrom(line, i) == Tokens(line)
      decreases |line| - i
    {
      if IsSpace(line[i]) {
        i := i + 1;
      } else {
        var token := "";
        var j := i;
        while j < |line| && !IsSpace(line[j])
          invariant i <= j <= |line|
          invariant token == line[i..j]
          invariant forall k :: i <= k < j ==> !IsSpace(line[k])
        {
          token := token + [line[j]];
          j := j + 1;
        }
        WordEndAt(line, i, j);
        tokens := tokens + [token];
        i := j;
      }
    }
  }

  /** Every token is non-empty and holds no whitespace. */
  lemma {:induction false} TokensFromWellFormed(s: string, i: nat)
    requires i <= |s|
    ensures forall k :: 0 <= k < |TokensFrom(s, i)| ==>
      |TokensFrom(s, i)[k]| > 0 && NoSpace(TokensFrom(s, i)[k])
    decreases |s| - i
  {
    if i < |s| {
      if IsSpace(s[i]) {
        TokensFromWellFormed(s, i + 1);
      } else {
        var e := WordEnd(s, i);
        TokensFromWellFormed(s, e);
        var ts := TokensFrom(s, i);
        assert ts == [s[i..e]] + TokensFrom(s, e);
        forall k | 0 <= k < |ts|
          ensures |ts[k]| > 0 && NoSpace(ts[k])
        {
          if k > 0 {
            assert ts[k] == TokensFrom(s, e)[k - 1];
          }
        }
      }
    }
  }

  lemma TokensWellFormed(s: string)
    ensures forall k :: 0 <= k < |Tokens(s)| ==> |Tokens(s)[k]| > 0 && NoSpace(Tokens(s)[k])
  {
    TokensFromWellFormed(s, 0);
  }

  lemma {:induction false} ConcatAppend(a: seq<string>, b: seq<string>)
    ensures Concat(a + b) == Concat(a) + Concat(b)
    decreases |b|
  {
    if |b| == 0 {
      assert a + b == a;
    } else {
      ConcatAppend(a, b[..|b| - 1]);
      assert (a + b)[..|a + b| - 1] == a + b[..|b| - 1];
    }
  }

  lemma {:induction false} NonSpaceAppend(a: string, b: string)
    ensures NonSpace(a + b) == NonSpace(a) + NonSpace(b)
    decreases |b|
  {
    if |b| == 0 {
      assert a + b == a;
    } else {
      NonSpaceAppend(a, b[..|b| - 1]);
      assert (a + b)[..|a + b| - 1] == a + b[..|b| - 1];
    }
  }

  lemma {:induction false} NonSpaceOfWord(w: string)
    requires NoSpace(w)
    ensures NonSpace(w) == w
    decreases |w|
  {
    if |w| > 0 {
      NonSpaceOfWord(w[..|w| - 1]);
    }
  }

  lemma {:induction false} TokensFromConcat(s: string, i: nat)
    requires i <= |s|
    ensures Concat(TokensFrom(s, i)) == NonSpace(s[i..])
    decreases |s| - i
  {
    if i == |s| {
    } else if IsSpace(s[i]) {
      TokensFromConcat(s, i + 1);
      assert s[i..] == [s[i]] + s[i + 1..];
      NonSpaceAppend([s[i]], s[i + 1..]);
      assert NonSpace([s[i]]) == [];
    } else {
      var e := WordEnd(s, i);
      TokensFromConcat(s, e);
      ConcatAppend([s[i..e]], TokensFrom(s, e));
      assert Concat([s[i..e]]) == s[i..e] by {
        assert [s[i..e]][..0] == [];
      }
      assert s[i..] == s[i..e] + s[e..];
      NonSpaceAppend(s[i..e], s[e..]);
      NonSpaceOfWord(s[i..e]);
    }
  }

  /** Gluing the tokens back together gives the line without its whitespace. */
  lemma TokensConcat(s: string)
    ensures Concat(Tokens(s)) == NonSpace(s)
  {
    TokensFromConcat(s, 0);
    assert s[0..] == s;
  }

  // ---------------------------------------------------------------- condensing

  const NotStarted: string := "NOT_STARTED"

  /** `current_attribute` and `attributes` of the condensing loop. */
  datatype CondenseState = CondenseState(current: string, attributes: seq<string>)

  /** The state after the loop has seen the tokens `rest`, which follow the object type. */
  function CondenseRest(rest: seq<string>): CondenseState
  {
    if |rest| == 0 then CondenseState(NotStarted, [])
    else
      var st := CondenseRest(rest[..|rest| - 1]);
      var token := rest[|rest| - 1];
      if StartsAttribute(token) then
        CondenseState(token, if st.current != NotStarted then st.attributes + [st.current] else st.attributes)
      else
        CondenseState(st.current + token, st.attributes)
  }

  /** The final push after the loop. */
  function Flush(st: CondenseState): seq<string>
  {
    if st.current != NotStarted then st.attributes + [st.current] else st.attributes
  }

  datatype Condensed = Condensed(objectType: string, attributes: seq<string>)

  /** The object type (empty when the line has no token) and the condensed attributes. */
  function Condense(tokens: seq<string>): Condensed
  {
    if |tokens| == 0 then Condensed("", []) else Condensed(tokens[0], Flush(CondenseRest(tokens[1..])))
  }

  /** The condensing loop of `parseLine` over `raw_tokens`. */
  method CondenseTokens(rawTokens: seq<string>) returns (objectType: string, attributes: seq<string>)
    ensures Condensed(objectType, attributes) == Condense(rawTokens)
  {
    objectType := "";
    var current := NotStarted;
    attributes := [];
    for i := 0 to |rawTokens|
      invariant i == 0 ==> objectType == "" && current == NotStarted && attributes == []
      invariant i > 0 ==> objectType == rawTokens[0] && CondenseState(current, attributes) == CondenseRest(rawTokens[1..i])
    {
      var token := rawTokens[i];
      if i == 0 {
        objectType := token;
      } else {
        assert rawTokens[1..i + 1][..i - 1] == rawTokens[1..i];
        if StartsAttribute(token) {
          if current != NotStarted {
            attributes := attributes + [current];
          }
          current := token;
        } else {
          current := current + token;
        }
      }
    }
    if current != NotStarted {
      attributes := attributes + [current];
    }
    if |rawTokens| > 0 {
      assert rawTokens[1..|rawTokens|] == rawTokens[1..];
    }
  }

  /** The number of tokens in `ts` that start an attribute. */
  function CountStarts(ts: seq<string>): nat
  {
    if |ts| == 0 then 0 else CountStarts(ts[..|ts| - 1]) + (if StartsAttribute(ts[|ts| - 1]) then 1 else 0)
  }

  /** The tokens after the object type begin with one that does not start an attribute. */
  predicate Stray(rest: seq<string>) { |rest| > 0 && !StartsAttribute(rest[0]) }

  /** What the sentinel contributes to the glued text: itself exactly when a stray token comes first. */
  function Prefix(rest: seq<string>): string { if Stray(rest) then NotStarted else "" }

  /** Tokens as `ss >> token` produces them: non-empty and free of line terminators. */
  predicate PlainTokens(ts: seq<string>)
  {
    forall k :: 0 <= k < |ts| ==> |ts[k]| > 0 && NoLineTerminator(ts[k])
  }

  lemma StartsAttributeHasColon(t: string)
    requires StartsAttribute(t)
    ensures ':' in t
  {
    AttributeNameOfAttribute(t);
    var n := AttributeName(t).value;
    assert t[|n|] == ':';
  }

  /** The sentinel has no colon, and any longer text extending it differs from it. */
  predicate Started(current: string)
  {
    ':' in current || (|current| > |NotStarted| && current[..|NotStarted|] == NotStarted)
  }

  lemma StartedIsNotSentinel(current: string)
    requires Started(current)
    ensures current != NotStarted
  {
  }

  lemma {:induction false} PlainInit(rest: seq<string>)
    requires PlainTokens(rest) && |rest| > 0
    ensures PlainTokens(rest[..|rest| - 1])
  {
    var init := rest[..|rest| - 1];
    forall k | 0 <= k < |init| ensures |init[k]| > 0 && NoLineTerminator(init[k]) {
      assert init[k] == rest[k];
    }
  }

  lemma {:induction false} StrayInit(rest: seq<string>)
    requires |rest| > 1
    ensures Stray(rest[..|rest| - 1]) == Stray(rest) && Prefix(rest[..|rest| - 1]) == Prefix(rest)
  {
    assert rest[..|rest| - 1][0] == rest[0];
  }

  lemma SingletonConcat(t: string)
    ensures Concat([t]) == t
  {
    assert [t][..0] == [];
  }

  /** The sentinel is replaced as soon as a token follows the object type, and never comes back. */
  lemma {:induction false} CondenseStarted(rest: seq<string>)
    requires PlainTokens(rest)
    ensures |rest| == 0 <==> CondenseRest(rest).current == NotStarted
    ensures |rest| > 0 ==> Started(CondenseRest(rest).current)
    decreases |rest|
  {
    if |rest| > 0 {
      var init := rest[..|rest| - 1];
      var token := rest[|rest| - 1];
      PlainInit(rest);
      CondenseStarted(init);
      var st0 := CondenseRest(init);
      var st := CondenseRest(rest);
      if StartsAttribute(token) {
        StartsAttributeHasColon(token);
      } else if |init| > 0 {
        if ':' in st0.current {
          var k :| 0 <= k < |st0.current| && st0.current[k] == ':';
          assert (st0.current + token)[k] == ':';
        } else {
          assert (st0.current + token)[..|NotStarted|] == st0.current[..|NotStarted|];
        }
      } else {
        assert (NotStarted + token)[..|NotStarted|] == NotStarted;
      }
      StartedIsNotSentinel(st.current);
    }
  }

  /** The text the attributes collected so far glue back to, with the attribute still being collected. */
  function Collected(rest: seq<string>): string
  {
    var st := CondenseRest(rest);
    Concat(st.attributes) + (if |rest| > 0 then st.current else "")
  }

  lemma {:induction false} CondenseConcatFirst(rest: seq<string>)
    requires |rest| == 1
    ensures Collected(rest) == Prefix(rest) + Concat(rest)
  {
    var token := rest[0];
    assert rest[..0] == [];
    assert Concat(rest) == token by {
      SingletonConcat(token);
    }
    if StartsAttribute(token) {
      assert CondenseRest(rest) == CondenseState(token, []);
    } else {
      assert CondenseRest(rest) == CondenseState(NotStarted + token, []);
    }
  }

  lemma {:induction false} GlueAfterAttribute(attrs: seq<string>, current: string, token: string, prefix: string, glued: string)
    requires Concat(attrs) + current == prefix + glued
    ensures Concat(attrs + [current]) + token == prefix + (glued + token)
  {
    ConcatAppend(attrs, [current]);
    SingletonConcat(current);
  }

  lemma {:induction false} GlueAfterStray(attrs: seq<string>, current: string, token: string, prefix: string, glued: string)
    requires Concat(attrs) + current == prefix + glued
    ensures Concat(attrs) + (current + token) == prefix + (glued + token)
  {
    assert Concat(attrs) + (current + token) == (Concat(attrs) + current) + token;
    assert prefix + (glued + token) == (prefix + glued) + token;
  }

  lemma {:induction false} CondenseConcatNext(rest: seq<string>)
    requires |rest| > 1
    requires CondenseRest(rest[..|rest| - 1]).current != NotStarted
    requires Collected(rest[..|rest| - 1]) == Prefix(rest[..|rest| - 1]) + Concat(rest[..|rest| - 1])
    ensures Collected(rest) == Prefix(rest) + Concat(rest)
  {
    var init := rest[..|rest| - 1];
    var token := rest[|rest| - 1];
    var st0 := CondenseRest(init);
    var st := CondenseRest(rest);
    StrayInit(rest);
    assert Concat(st0.attributes) + st0.current == Prefix(rest) + Concat(init);
    if StartsAttribute(token) {
      assert st == CondenseState(token, st0.attributes + [st0.current]);
      GlueAfterAttribute(st0.attributes, st0.current, token, Prefix(rest), Concat(init));
    } else {
      assert st == CondenseState(st0.current + token, st0.attributes);
      GlueAfterStray(st0.attributes, st0.current, token, Prefix(rest), Concat(init));
    }
    assert Collected(rest) == Concat(st.attributes) + st.current;
  }

  /** The collected text is the sentinel, when a stray token comes first, followed by all tokens glued together. */
  lemma {:induction false} CondenseConcat(rest: seq<string>)
    requires PlainTokens(rest)
    ensures Collected(rest) == Prefix(rest) + Concat(rest)
    decreases |rest|
  {
    if |rest| == 1 {
      CondenseConcatFirst(rest);
    } else if |rest| > 1 {
      PlainInit(rest);
      CondenseConcat(rest[..|rest| - 1]);
      CondenseStarted(rest[..|rest| - 1]);
      CondenseConcatNext(rest);
    }
  }

  /** Every collected attribute, except a leading stray one, starts an attribute. */
  lemma {:induction false} CondenseStarts(rest: seq<string>)
    requires PlainTokens(rest)
    ensures var st := CondenseRest(rest);
      && (forall k :: 0 <= k < |st.attributes| && !(k == 0 && Stray(rest)) ==> StartsAttribute(st.attributes[k]))
      && (|rest| > 0 && !(|st.attributes| == 0 && Stray(rest)) ==> StartsAttribute(st.current))
    decreases |rest|
  {
    if |rest| > 0 {
      var init := rest[..|rest| - 1];
      var token := rest[|rest| - 1];
      PlainInit(rest);
      CondenseStarts(init);
      CondenseStarted(init);
      var st0 := CondenseRest(init);
      var st := CondenseRest(rest);
      if |init| > 0 {
        StrayInit(rest);
        StartedIsNotSentinel(st0.current);
        if StartsAttribute(token) {
          assert st.attributes == st0.attributes + [st0.current];
          forall k | 0 <= k < |st.attributes| && !(k == 0 && Stray(rest))
            ensures StartsAttribute(st.attributes[k])
          {
            if k < |st0.attributes| {
              assert st.attributes[k] == st0.attributes[k];
            }
          }
        } else if !(|st.attributes| == 0 && Stray(rest)) {
          StartsAttributeAppend(st0.current, token);
        }
      }
    }
  }

  /** One attribute per attribute-starting token, plus one for a stray prefix. */
  lemma {:induction false} CondenseCount(rest: seq<string>)
    requires PlainTokens(rest)
    ensures |CondenseRest(rest).attributes| + (if |rest| > 0 then 1 else 0) == CountStarts(rest) + (if Stray(rest) then 1 else 0)
    decreases |rest|
  {
    if |rest| > 0 {
      var init := rest[..|rest| - 1];
      PlainInit(rest);
      CondenseCount(init);
      CondenseStarted(init);
      if |init| > 0 {
        StrayInit(rest);
        StartedIsNotSentinel(CondenseRest(init).current);
      }
    }
  }

  /**
   * What `parseLine` hands to the builders: the attributes glue back to the
   * sentinel (exactly when a stray token comes first) followed by all the
   * tokens after the object type; every attribute but a leading stray one
   * starts an attribute; and there is one attribute per attribute-starting
   * token, plus one for the stray prefix.
   */
  lemma {:induction false} CondenseProperties(tokens: seq<string>)
    requires PlainTokens(tokens)
    ensures var c := Condense(tokens);
      var rest := if |tokens| > 0 then tokens[1..] else [];
      && c.objectType == (if |tokens| > 0 then tokens[0] else "")
      && Concat(c.attributes) == Prefix(rest) + Concat(rest)
      && (forall k :: 0 <= k < |c.attributes| && !(k == 0 && Stray(rest)) ==> StartsAttribute(c.attributes[k]))
      && |c.attributes| == CountStarts(rest) + (if Stray(rest) then 1 else 0)
  {
    if |tokens| > 0 {
      var rest := tokens[1..];
      assert PlainTokens(rest) by {
        forall k | 0 <= k < |rest| ensures |rest[k]| > 0 && NoLineTerminator(rest[k]) {
          assert rest[k] == tokens[k + 1];
        }
      }
      FlushConcat(rest);
      FlushStarts(rest);
      FlushCount(rest);
    }
  }

  /** The final push completes the glued text: the attributes glue back to the sentinel prefix and the tokens. */
  lemma FlushConcat(rest: seq<string>)
    requires PlainTokens(rest)
    ensures Concat(Flush(CondenseRest(rest))) == Prefix(rest) + Concat(rest)
  {
    CondenseStarted(rest);
    CondenseConcat(rest);
    var st := CondenseRest(rest);
    if |rest| > 0 {
      ConcatAppend(st.attributes, [st.current]);
      SingletonConcat(st.current);
    }
  }

  /** After the final push every attribute but a leading stray one starts an attribute. */
  lemma FlushStarts(rest: seq<string>)
    requires PlainTokens(rest)
    ensures var a := Flush(CondenseRest(rest));
      forall k :: 0 <= k < |a| && !(k == 0 && Stray(rest)) ==> StartsAttribute(a[k])
  {
    CondenseStarted(rest);
    CondenseStarts(rest);
    var st := CondenseRest(rest);
    if |rest| > 0 {
      StartedIsNotSentinel(st.current);
      forall k | 0 <= k < |Flush(st)| && !(k == 0 && Stray(rest))
        ensures StartsAttribute(Flush(st)[k])
      {
        if k < |st.attributes| {
          assert Flush(st)[k] == st.attributes[k];
        }
      }
    }
  }

  /** After the final push there is one attribute per attribute-starting token, plus one for a stray prefix. */
  lemma FlushCount(rest: seq<string>)
    requires PlainTokens(rest)
    ensures |Flush(CondenseRest(rest))| == CountStarts(rest) + (if Stray(rest) then 1 else 0)
  {
    CondenseStarted(rest);
    CondenseCount(rest);
    if |rest| > 0 {
      StartedIsNotSentinel(CondenseRest(rest).current);
    }
  }


  /** Tokens never hold a line terminator, so the condensing lemmas apply to every tokenised line. */
  lemma TokensArePlain(s: string)
    ensures PlainTokens(Tokens(s))
  {
    TokensWellFormed(s);
    forall k | 0 <= k < |Tokens(s)|
      ensures NoLineTerminator(Tokens(s)[k])
    {
      var t := Tokens(s)[k];
      assert NoSpace(t);
      forall i | 0 <= i < |t| ensures !IsLineTerminator(t[i]) {
        assert !IsSpace(t[i]);
      }
    }
  }
}
