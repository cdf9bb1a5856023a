/** Which texts Python's int() takes for which number, said of the text as a whole. */
module ItsNumbers {
  import opened Wrappers
  import opened ItsFraming

  predicate AllSpace(s: Bytes) {
    forall i :: 0 <= i < |s| ==> s[i] == ' ' || 9 <= s[i] as int <= 13
  }

  predicate IsNumeral(c: char) {
    48 <= c as int <= 57
  }

  /** Digits, with single underscores between them and none at either end. */
  predicate Grouped(s: Bytes) {
    && s != [] && IsNumeral(s[0]) && IsNumeral(s[|s| - 1])
    && (forall i :: 0 <= i < |s| ==> IsNumeral(s[i]) || s[i] == '_')
    && (forall i :: 0 <= i < |s| - 1 ==> IsNumeral(s[i]) || IsNumeral(s[i + 1]))
  }

  /** The number that the digits spell, whatever stands between them. */
  function Value(s: Bytes): nat {
    if s == [] then 0
    else
      var front, last := Value(s[..|s| - 1]), s[|s| - 1];
      if IsNumeral(last) then 10 * front + (last as int - 48) else front
  }

  function NumberOf(sign: Bytes, body: Bytes): int {
    var n: int := Value(body);
    if sign == "-" then -n else n
  }

  lemma {:induction false} DigitsIff(s: Bytes)
    ensures ParseDigits(s) == if Grouped(s) then Some(Value(s)) else None
    decreases |s|
  {
    if |s| >= 2 && IsNumeral(s[|s| - 1]) {
      var n := |s|;
      var front := if s[n - 2] == '_' then s[..n - 2] else s[..n - 1];
      DigitsIff(front);
      assert s[..n - 1][..n - 2] == s[..n - 2];
      if Grouped(s) {
        assert s[n - 2] == '_' ==> n >= 3 && IsNumeral(s[n - 3]);
        assert Grouped(front);
      }
      if Grouped(front) {
        assert Grouped(s);
      }
    }
  }

  lemma {:induction false} StripsLeft(a: Bytes, t: Bytes)
    requires AllSpace(a) && (t != [] ==> !IsSpace(t[0]))
    ensures StripLeft(a + t) == t
    decreases |a|
  {
    if a == [] {
      assert a + t == t;
    } else {
      assert (a + t)[1..] == a[1..] + t;
      StripsLeft(a[1..], t);
    }
  }

  lemma {:induction false} StripsRight(t: Bytes, b: Bytes)
    requires AllSpace(b) && (t != [] ==> !IsSpace(t[|t| - 1]))
    ensures StripRight(t + b) == t
    decreases |b|
  {
    if b == [] {
      assert t + b == t;
    } else {
      var n := |b| - 1;
      assert (t + b)[|t + b| - 1] == b[n] && (t + b)[..|t + b| - 1] == t + b[..n];
      StripsRight(t, b[..n]);
    }
  }

  lemma {:induction false} LeftStripped(s: Bytes) returns (a: Bytes)
    ensures AllSpace(a) && s == a + StripLeft(s)
    ensures StripLeft(s) != [] ==> !IsSpace(StripLeft(s)[0])
    decreases |s|
  {
    if s != [] && IsSpace(s[0]) {
      var rest := LeftStripped(s[1..]);
      a := [s[0]] + rest;
    } else {
      a := [];
    }
  }

  lemma {:induction false} RightStripped(s: Bytes) returns (b: Bytes)
    ensures AllSpace(b) && s == StripRight(s) + b
    decreases |s|
  {
    if s != [] && IsSpace(s[|s| - 1]) {
      var rest := RightStripped(s[..|s| - 1]);
      b := rest + [s[|s| - 1]];
    } else {
      b := [];
    }
  }

  /** White space around a sign and digits. */
  ghost predicate Spells(s: Bytes, n: int) {
    exists a: Bytes, sign: Bytes, body: Bytes, b: Bytes ::
      && s == a + (sign + body) + b && AllSpace(a) && AllSpace(b)
      && sign in {"", "+", "-"} && Grouped(body) && n == NumberOf(sign, body)
  }

  lemma SignedText(t: Bytes, n: int) returns (sign: Bytes, body: Bytes)
    requires t != []
    requires (if t[0] == '-' || t[0] == '+' then Signed(ParseDigits(t[1..]), t[0] == '-')
              else Signed(ParseDigits(t), false)) == Some(n)
    ensures t == sign + body && sign in {"", "+", "-"} && Grouped(body)
    ensures n == NumberOf(sign, body)
  {
    if t[0] == '-' || t[0] == '+' {
      sign, body := t[..1], t[1..];
      assert sign == [t[0]];
    } else {
      sign, body := "", t;
    }
    DigitsIff(body);
  }

  /** int() takes a text for a number exactly when the text spells it. */
  lemma ParseIntIff(s: Bytes, n: int)
    ensures ParseInt(s) == Some(n) <==> Spells(s, n)
  {
    if ParseInt(s) == Some(n) {
      var a := LeftStripped(s);
      var b := RightStripped(StripLeft(s));
      var sign, body := SignedText(StripRight(StripLeft(s)), n);
      assert s == a + (sign + body) + b;
    }
    if Spells(s, n) {
      var a: Bytes, sign: Bytes, body: Bytes, b: Bytes :|
        && s == a + (sign + body) + b && AllSpace(a) && AllSpace(b)
        && sign in {"", "+", "-"} && Grouped(body) && n == NumberOf(sign, body);
      SpelledParses(a, sign, body, b);
    }
  }

  lemma SpelledParses(a: Bytes, sign: Bytes, body: Bytes, b: Bytes)
    requires AllSpace(a) && AllSpace(b) && sign in {"", "+", "-"} && Grouped(body)
    ensures ParseInt(a + (sign + body) + b) == Some(NumberOf(sign, body))
  {
    var t := sign + body;
    assert t[|t| - 1] == body[|body| - 1];
    assert a + t + b == a + (t + b);
    assert (t + b)[0] == t[0];
    StripsLeft(a, t + b);
    StripsRight(t, b);
    SignedParses(sign, body);
  }

  lemma SignedParses(sign: Bytes, body: Bytes)
    requires sign in {"", "+", "-"} && Grouped(body)
    ensures var t := sign + body;
            (if t[0] == '-' || t[0] == '+' then Signed(ParseDigits(t[1..]), t[0] == '-')
             else Signed(ParseDigits(t), false)) == Some(NumberOf(sign, body))
  {
    DigitsIff(body);
    assert sign == "" ==> sign + body == body;
    assert sign != "" ==> (sign + body)[1..] == body && (sign + body)[0] == sign[0];
  }
}
