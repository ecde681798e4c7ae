/** Characters and strings: white space, sizes in UTF-8, and the order of strings. */
module Text {
  /** Unicode White_Space. */
  predicate IsWhitespace(c: char) {
    || '\t' <= c <= '\U{D}' || c == ' ' || c == '\U{85}' || c == '\U{A0}' || c == '\U{1680}'
    || '\U{2000}' <= c <= '\U{200A}' || '\U{2028}' <= c <= '\U{2029}' || c == '\U{202F}' || c == '\U{205F}' || c == '\U{3000}'
  }

  // ---------- Decimal numbers ----------

  function Digit(n: int): char
    requires 0 <= n < 10
  {
    '0' + n as char
  }

  function Decimal(n: nat): string {
    if n < 10 then [Digit(n)] else Decimal(n / 10) + [Digit(n % 10)]
  }

  // ---------- Sizes in UTF-8 ----------

  function Utf8Length(c: char): (n: nat)
    ensures 1 <= n <= 4
  {
    var point := c as int;
    if point < 0x80 then 1 else if point < 0x800 then 2 else if point < 0x1_0000 then 3 else 4
  }

  function Bytes(s: string): nat {
    if s == "" then 0 else Utf8Length(s[0]) + Bytes(s[1..])
  }

  lemma {:induction false} BytesJoin(a: string, b: string)
    ensures Bytes(a + b) == Bytes(a) + Bytes(b)
  {
    if a == "" {
      assert a + b == b;
    } else {
      assert (a + b)[1..] == a[1..] + b;
      BytesJoin(a[1..], b);
    }
  }

  lemma BytesOfCharacter(c: char)
    ensures Bytes([c]) == Utf8Length(c)
  {
    assert [c][1..] == "";
  }

  // ---------- Lexical order ----------

  predicate LexLess(a: string, b: string) {
    b != "" && (a == "" || a[0] < b[0] || (a[0] == b[0] && LexLess(a[1..], b[1..])))
  }

  lemma {:induction false} LexIrreflexive(a: string)
    ensures !LexLess(a, a)
  {
    if a != "" { LexIrreflexive(a[1..]); }
  }

  lemma {:induction false} LexTotal(a: string, b: string)
    ensures LexLess(a, b) || LexLess(b, a) || a == b
    ensures !(LexLess(a, b) && LexLess(b, a))
  {
    if a != "" && b != "" {
      LexTotal(a[1..], b[1..]);
      assert a == [a[0]] + a[1..] && b == [b[0]] + b[1..];
    }
  }

  lemma {:induction false} LexTransitive(a: string, b: string, c: string)
    requires LexLess(a, b) && LexLess(b, c)
    ensures LexLess(a, c)
  {
    if a != "" && a[0] == b[0] == c[0] {
      LexTransitive(a[1..], b[1..], c[1..]);
    }
  }

  lemma {:induction false} LexBlocks(a: string, b: string, restA: string, restB: string)
    requires |a| == |b|
    ensures LexLess(a + restA, b + restB) <==> LexLess(a, b) || (a == b && LexLess(restA, restB))
  {
    if a == "" {
      assert a + restA == restA && b + restB == restB;
    } else {
      assert (a + restA)[1..] == a[1..] + restA && (b + restB)[1..] == b[1..] + restB;
      assert a == [a[0]] + a[1..] && b == [b[0]] + b[1..];
      LexBlocks(a[1..], b[1..], restA, restB);
    }
  }
}
