/**
 * Ground GDL names as the propositional network sees them: a proposition is
 * named by a bare constant (`terminal`, `init`) or by a relation applied to
 * ground terms (`(legal white (mark 1 1))`, `(does white noop)`).
 */
module Gdl {

  datatype Option<T> = None | Some(value: T)

  /** A ground GDL term: a constant or a function applied to terms. */
  datatype Term = Const(name: string) | Func(name: string, args: seq<Term>)

  /** A ground GDL sentence: a proposition constant or a relation. */
  datatype Sentence = Prop(name: string) | Rel(name: string, body: seq<Term>)

  /** A player, named by a GDL constant. */
  datatype Role = Role(name: string)

  /** A move is the GDL term a player submits. */
  datatype Move = Move(contents: Term)

  predicate IsRelationNamed(s: Sentence, n: string)
  {
    s.Rel? && s.name == n
  }

  /** The `does` sentence for a role playing a move. */
  function Does(r: Role, m: Move): (s: Sentence)
    ensures IsRelationNamed(s, "does") && s.body == [Const(r.name), m.contents]
  {
    Rel("does", [Const(r.name), m.contents])
  }

  /** ASCII upper-casing of one character. */
  function UpperChar(c: char): char
  {
    if 'a' <= c <= 'z' then (c as int - 'a' as int + 'A' as int) as char else c
  }

  function ToUpper(s: string): (r: string)
    ensures |r| == |s|
    ensures forall i :: 0 <= i < |s| ==> r[i] == UpperChar(s[i])
  {
    if s == [] then [] else [UpperChar(s[0])] + ToUpper(s[1..])
  }

  /** The initial-state proposition is a constant whose upper-cased name is INIT. */
  predicate IsInitName(s: Sentence)
  {
    s.Prop? && ToUpper(s.name) == "INIT"
  }

  /** The terminal proposition is the constant named exactly `terminal`. */
  predicate IsTerminalName(s: Sentence)
  {
    s.Prop? && s.name == "terminal"
  }

  /**
   * A sentence names the initial state exactly when it is a constant spelling
   * `init` in any mix of letter cases; the terminal proposition never does.
   */
  lemma InitNameCases(s: Sentence)
    ensures IsInitName(s) <==> s.Prop? && |s.name| == 4
                                && forall i :: 0 <= i < 4 ==> s.name[i] == "init"[i] || s.name[i] == "INIT"[i]
    ensures IsTerminalName(s) ==> !IsInitName(s)
  {
    if s.Prop? && |s.name| == 4 {
      var u := ToUpper(s.name);
      if forall i :: 0 <= i < 4 ==> s.name[i] == "init"[i] || s.name[i] == "INIT"[i] {
        assert u == "INIT" by {
          forall i | 0 <= i < 4 ensures u[i] == "INIT"[i] {
            assert s.name[i] == "init"[i] || s.name[i] == "INIT"[i];
          }
        }
      }
      if u == "INIT" {
        forall i | 0 <= i < 4 ensures s.name[i] == "init"[i] || s.name[i] == "INIT"[i] {
          assert UpperChar(s.name[i]) == "INIT"[i];
        }
      }
    }
    if IsTerminalName(s) {
      assert ToUpper(s.name)[0] == 'T';
    }
  }

  // ---------------------------------------------------------------------------
  // Decimal integers, as read by the 32-bit signed integer parser of the JDK
  // (radix 10, optional sign, ASCII digits only) and written by its printer.
  // ---------------------------------------------------------------------------

  const IntMin: int := -0x8000_0000
  const IntMax: int := 0x7FFF_FFFF

  predicate IsDigit(c: char)
  {
    '0' <= c <= '9'
  }

  predicate AllDigits(s: string)
  {
    forall i :: 0 <= i < |s| ==> IsDigit(s[i])
  }

  /** The number written by a string of decimal digits, most significant first. */
  function DigitsValue(s: string): nat
    requires AllDigits(s)
  {
    if s == [] then 0 else DigitsValue(s[..|s| - 1]) * 10 + (s[|s| - 1] as int - '0' as int)
  }

  /** Decimal digits of a natural number, without leading zeros. */
  function NatDigits(n: nat): (s: string)
    ensures |s| > 0 && AllDigits(s)
    ensures DigitsValue(s) == n
    decreases n
  {
    if n < 10 then ['0' + n as char]
    else
      var p := NatDigits(n / 10);
      var s := p + ['0' + (n % 10) as char];
      assert s[..|s| - 1] == p;
      s
  }

  function IntToString(n: int): string
  {
    if n < 0 then "-" + NatDigits(-n) else NatDigits(n)
  }

  /**
   * Parses a signed decimal integer: an optional '+' or '-', then at least
   * one digit, and a value that fits in 32 bits; anything else is rejected.
   */
  function ParseInt(s: string): (r: Option<int>)
    ensures r.Some? ==> IntMin <= r.value <= IntMax
    ensures r.Some? ==> |s| > 0
    ensures s == [] || s == "-" || s == "+" ==> r.None?
  {
    if |s| == 0 then None
    else
      var digits := if s[0] == '-' || s[0] == '+' then s[1..] else s;
      if |digits| == 0 || !AllDigits(digits) then None
      else
        var v: int := if s[0] == '-' then -(DigitsValue(digits) as int) else DigitsValue(digits);
        if IntMin <= v <= IntMax then Some(v) else None
  }

  /** Every 32-bit integer survives printing and parsing back. */
  lemma ParseIntToString(n: int)
    requires IntMin <= n <= IntMax
    ensures ParseInt(IntToString(n)) == Some(n)
  {
    var s := IntToString(n);
    if n < 0 {
      assert s[1..] == NatDigits(-n);
    } else {
      var d := NatDigits(n);
      assert d[0] != '-' && d[0] != '+' by { assert IsDigit(d[0]); }
    }
  }

  /** A string with a character that is not a digit (after the sign) is rejected. */
  lemma ParseIntRejectsNonDigit(s: string, i: nat)
    requires 0 < i < |s| && !IsDigit(s[i])
    ensures ParseInt(s).None?
  {
    var digits := if s[0] == '-' || s[0] == '+' then s[1..] else s;
    if s[0] == '-' || s[0] == '+' {
      assert digits[i - 1] == s[i];
    } else {
      assert digits[i] == s[i];
    }
  }
}
