/** JSON text with holes: what stands inside a string literal, and how a caller's
    value is escaped before it is put there. */
module ClaimsText {
  /** One character, or the place of a caller's parameter. */
  datatype Symbol = Lit(c: char) | Hole(key: string)

  type Text = seq<Symbol>

  /** What each hole is filled with. */
  type Filling = string -> Text

  function Lits(s: string): Text {
    seq(|s|, i requires 0 <= i < |s| => Lit(s[i]))
  }

  lemma LitsConcat(a: string, b: string)
    ensures Lits(a + b) == Lits(a) + Lits(b)
  {
  }

  predicate HoleFree(s: Text) {
    forall x :: x in s ==> x.Lit?
  }

  function PutOne(x: Symbol, f: Filling): Text {
    if x.Lit? then [x] else f(x.key)
  }

  function Put(s: Text, f: Filling): Text {
    if s == [] then [] else PutOne(s[0], f) + Put(s[1..], f)
  }

  lemma Regroup(a: Text, b: Text, c: Text)
    ensures a + (b + c) == (a + b) + c
  {
  }

  lemma {:induction false} PutConcat(a: Text, b: Text, f: Filling)
    ensures Put(a + b, f) == Put(a, f) + Put(b, f)
  {
    if a == [] {
      assert a + b == b;
    } else {
      PutConcat(a[1..], b, f);
      assert (a + b)[0] == a[0] && (a + b)[1..] == a[1..] + b;
      Regroup(PutOne(a[0], f), Put(a[1..], f), Put(b, f));
    }
  }

  lemma PutSnoc(s: Text, x: Symbol, f: Filling)
    ensures Put(s + [x], f) == Put(s, f) + PutOne(x, f)
  {
    PutConcat(s, [x], f);
    assert [x][1..] == [] && Put([x], f) == PutOne(x, f) + [];
  }

  lemma {:induction false} PutHoleFree(s: Text, f: Filling)
    requires HoleFree(s)
    ensures Put(s, f) == s
  {
    if s != [] {
      assert s[0] in s;
      PutHoleFree(s[1..], f);
      assert s == [s[0]] + s[1..];
    }
  }

  // ----- inside a string literal -----

  /** Where a scan stands: between characters, after a backslash, or after `\u` and
      so many digits. `Bad` is what no string literal contains. */
  datatype Mode = Plain | Slash | Hex(digits: nat) | Bad

  predicate IsHex(c: char) {
    '0' <= c <= '9' || 'a' <= c <= 'f' || 'A' <= c <= 'F'
  }

  /** A hole stands for whole characters, so it may not split an escape. */
  function Next(m: Mode, x: Symbol): Mode {
    match x
    case Hole(_) => if m.Plain? then Plain else Bad
    case Lit(c) =>
      match m
      case Plain => if c == '"' || c < ' ' then Bad else if c == '\\' then Slash else Plain
      case Slash =>
        if c == '"' || c == '\\' || c == '/' || c == 'b' || c == 'f' || c == 'n' || c == 'r' || c == 't' then Plain
        else if c == 'u' then Hex(0) else Bad
      case Hex(n) => if !IsHex(c) then Bad else if n >= 3 then Plain else Hex(n + 1)
      case Bad => Bad
  }

  function Modes(m: Mode, s: Text): Mode
    decreases s
  {
    if s == [] then m else Modes(Next(m, s[0]), s[1..])
  }

  lemma {:induction false} ModesConcat(m: Mode, a: Text, b: Text)
    ensures Modes(m, a + b) == Modes(Modes(m, a), b)
    decreases a
  {
    if a == [] {
      assert a + b == b;
    } else {
      ModesConcat(Next(m, a[0]), a[1..], b);
      assert (a + b)[0] == a[0] && (a + b)[1..] == a[1..] + b;
    }
  }

  lemma ModesSnoc(m: Mode, s: Text, x: Symbol)
    ensures Modes(m, s + [x]) == Next(Modes(m, s), x)
  {
    ModesConcat(m, s, [x]);
    assert [x][1..] == [];
  }

  lemma {:induction false} BadStays(s: Text)
    ensures Modes(Bad, s) == Bad
  {
    if s != [] {
      BadStays(s[1..]);
    }
  }

  /** What may stand between the quotes of a string literal. */
  type Content = c: Text | Modes(Plain, c) == Plain witness []

  ghost predicate Safe(f: Filling) {
    forall k :: HoleFree(f(k)) && Modes(Plain, f(k)) == Plain
  }

  /** Filling the holes leaves a scan where it was. */
  lemma {:induction false} PutModes(m: Mode, s: Text, f: Filling)
    requires Safe(f) && Modes(m, s) != Bad
    ensures Modes(m, Put(s, f)) == Modes(m, s)
    decreases s
  {
    if s != [] {
      var next := Next(m, s[0]);
      if next == Bad {
        BadStays(s[1..]);
      } else {
        PutModes(next, s[1..], f);
        ModesConcat(m, PutOne(s[0], f), Put(s[1..], f));
        if s[0].Lit? {
          assert [s[0]][1..] == [];
        }
      }
    }
  }

  lemma {:induction false} PutLeavesNoHole(s: Text, f: Filling)
    requires Safe(f)
    ensures HoleFree(Put(s, f))
  {
    if s != [] {
      PutLeavesNoHole(s[1..], f);
    }
  }

  // ----- escaping -----

  function HexDigit(n: nat): char
    requires n < 16
  {
    "0123456789abcdef"[n]
  }

  /** Go's JSON encoding of one character, HTML escaping included. */
  function EscapeChar(c: char): string {
    if c == '"' then "\\\"" else if c == '\\' then "\\\\"
    else if c == '\n' then "\\n" else if c == '\r' then "\\r" else if c == '\t' then "\\t"
    else if c == '\U{8}' then "\\b" else if c == '\U{c}' then "\\f"
    else if c < ' ' then "\\u00" + [HexDigit(c as int / 16), HexDigit(c as int % 16)]
    else if c == '<' then "\\u003c" else if c == '>' then "\\u003e" else if c == '&' then "\\u0026"
    else if c == '\U{2028}' then "\\u2028" else if c == '\U{2029}' then "\\u2029"
    else [c]
  }

  function Escape(s: string): string {
    if s == "" then "" else EscapeChar(s[0]) + Escape(s[1..])
  }

  /** A character that an escaped value has none of: control characters, what ends a script
      or an entity in HTML, and the two line separators of JavaScript. */
  predicate IsKeptOut(c: char) {
    c < ' ' || c == '<' || c == '>' || c == '&' || c == '\U{2028}' || c == '\U{2029}'
  }

  lemma {:induction false} EscapedKeepsOut(s: string, c: char)
    requires IsKeptOut(c)
    ensures c !in Escape(s)
  {
    if s != "" {
      EscapedKeepsOut(s[1..], c);
      EscapedCharKeepsOut(s[0], c);
    }
  }

  lemma EscapedCharKeepsOut(x: char, c: char)
    requires IsKeptOut(c)
    ensures c !in EscapeChar(x)
  {
    if x < ' ' {
      HexDigitIsPlain(x as int / 16);
      HexDigitIsPlain(x as int % 16);
    }
  }

  lemma HexDigitIsPlain(n: int)
    requires 0 <= n < 16
    ensures !IsKeptOut(HexDigit(n))
  {
  }

  lemma UnicodeEscapeIsPlain(a: char, b: char, c: char, d: char)
    requires IsHex(a) && IsHex(b) && IsHex(c) && IsHex(d)
    ensures Modes(Plain, Lits(['\\', 'u', a, b, c, d])) == Plain
  {
    var s := Lits(['\\', 'u', a, b, c, d]);
    assert Modes(Plain, s) == Modes(Hex(0), s[1..][1..]);
    assert s[1..][1..] == Lits([a, b, c, d]);
    HexDigitsEnd(a, b, c, d);
  }

  lemma HexDigitsEnd(a: char, b: char, c: char, d: char)
    requires IsHex(a) && IsHex(b) && IsHex(c) && IsHex(d)
    ensures Modes(Hex(0), Lits([a, b, c, d])) == Plain
  {
    var s := Lits([a, b, c, d]);
    assert Modes(Hex(0), s) == Modes(Hex(2), s[1..][1..]);
    assert s[1..][1..] == [Lit(c), Lit(d)];
    assert [Lit(c), Lit(d)][1..] == [Lit(d)] && [Lit(d)][1..] == [];
    assert Modes(Hex(3), [Lit(d)]) == Plain;
  }

  lemma ShortEscapeIsPlain(c: char)
    requires Next(Slash, Lit(c)) == Plain
    ensures Modes(Plain, Lits(['\\', c])) == Plain
  {
    assert Lits(['\\', c])[1..] == [Lit(c)] && [Lit(c)][1..] == [];
    assert Modes(Slash, [Lit(c)]) == Plain;
  }

  lemma EscapeCharIsPlain(c: char)
    ensures Modes(Plain, Lits(EscapeChar(c))) == Plain
  {
    var e := EscapeChar(c);
    if |e| == 1 {
      assert Lits(e)[1..] == [];
    } else if |e| == 2 {
      assert e == ['\\', e[1]];
      ShortEscapeIsPlain(e[1]);
    } else {
      assert e == ['\\', 'u', e[2], e[3], e[4], e[5]];
      UnicodeEscapeIsPlain(e[2], e[3], e[4], e[5]);
    }
  }

  /** An escaped value is string content: it neither ends the literal nor leaves an
      escape open. */
  lemma {:induction false} EscapedIsContent(s: string)
    ensures HoleFree(Lits(Escape(s))) && Modes(Plain, Lits(Escape(s))) == Plain
  {
    if s != "" {
      EscapeCharIsPlain(s[0]);
      EscapedIsContent(s[1..]);
      LitsConcat(EscapeChar(s[0]), Escape(s[1..]));
      ModesConcat(Plain, Lits(EscapeChar(s[0])), Lits(Escape(s[1..])));
    }
  }

  /** What a caller's values are filled in as. */
  function Escaped(values: string -> string): Filling {
    k => Lits(Escape(values(k)))
  }

  lemma EscapedIsSafe(values: string -> string)
    ensures Safe(Escaped(values))
  {
    forall k ensures HoleFree(Escaped(values)(k)) && Modes(Plain, Escaped(values)(k)) == Plain {
      EscapedIsContent(values(k));
    }
  }
}
