/** Text operations the queries and services rely on: SQL `LOWER` and `LIKE`, Java's
    `String.isBlank`, Bean Validation's `@NotBlank`, and the decimal rendering of numbers that
    string concatenation and `CAST(... AS string)` produce. */
module Text {

  /** SQL `LOWER` on one character: the ASCII capitals A–Z and the Latin-1 capitals À–Þ (all
      but the multiplication sign ×) are mapped to their lower-case forms, 32 code points up. */
  function LowerChar(c: char): char {
    if 'A' <= c <= 'Z' || ('\U{C0}' <= c <= '\U{DE}' && c != '\U{D7}') then (c as int + 32) as char else c
  }

  function ToLower(s: string): (r: string)
    ensures |r| == |s|
    ensures forall i :: 0 <= i < |s| ==> r[i] == LowerChar(s[i])
  {
    seq(|s|, i requires 0 <= i < |s| => LowerChar(s[i]))
  }

  lemma ToLowerConcat(a: string, b: string)
    ensures ToLower(a + b) == ToLower(a) + ToLower(b)
  {
    assert forall i :: 0 <= i < |a + b| ==> ToLower(a + b)[i] == (ToLower(a) + ToLower(b))[i];
  }

  /** `p` occurs in `s` at some position. */
  predicate IsSubstring(p: string, s: string) {
    exists k :: 0 <= k <= |s| && p <= s[k..]
  }

  /** A `LIKE` pattern without the wildcards `%` and `_`. */
  predicate Literal(p: string) {
    forall i :: 0 <= i < |p| ==> p[i] != '%' && p[i] != '_'
  }

  /** SQL `s LIKE pattern`: `%` matches any run of characters, `_` any single character, every
      other character itself. No escape character is declared by the queries. */
  function Like(s: string, pattern: string): bool
    decreases |s| + |pattern|
  {
    if pattern == [] then s == []
    else if pattern[0] == '%' then Like(s, pattern[1..]) || (s != [] && Like(s[1..], pattern))
    else s != [] && (pattern[0] == '_' || pattern[0] == s[0]) && Like(s[1..], pattern[1..])
  }

  /** Without wildcards, `LIKE` is string equality. */
  lemma {:induction false} LikeLiteral(s: string, p: string)
    requires Literal(p)
    ensures Like(s, p) <==> s == p
    decreases |p|
  {
    if p != [] && s != [] {
      LikeLiteral(s[1..], p[1..]);
      assert s == [s[0]] + s[1..] && p == [p[0]] + p[1..];
    }
  }

  /** The pattern `%` matches every string. */
  lemma {:induction false} LikePercent(s: string)
    ensures Like(s, "%")
    decreases |s|
  {
    if s != [] {
      LikePercent(s[1..]);
    }
  }

  /** A literal followed by `%` matches exactly the strings it is a prefix of. */
  lemma {:induction false} LikePrefix(s: string, p: string)
    requires Literal(p)
    ensures Like(s, p + "%") <==> p <= s
    decreases |p|
  {
    if p == [] {
      assert p + "%" == "%";
      LikePercent(s);
    } else {
      var q := p + "%";
      assert q[0] == p[0] && q[1..] == p[1..] + "%";
      if s != [] {
        LikePrefix(s[1..], p[1..]);
        assert p <= s <==> (p[0] == s[0] && p[1..] <= s[1..]);
      }
    }
  }

  /** A pattern starting with `%` matches when its rest matches some suffix. */
  lemma {:induction false} LikeLeadingPercent(s: string, q: string)
    ensures Like(s, "%" + q) <==> exists k :: 0 <= k <= |s| && Like(s[k..], q)
    decreases |s|
  {
    var pat := "%" + q;
    assert pat[0] == '%' && pat[1..] == q;
    assert s[0..] == s;
    if s != [] {
      LikeLeadingPercent(s[1..], q);
      if Like(s, pat) {
        if !Like(s, q) {
          var k :| 0 <= k <= |s[1..]| && Like(s[1..][k..], q);
          assert s[1..][k..] == s[k + 1..];
        }
      } else {
        forall k | 0 <= k <= |s| ensures !Like(s[k..], q) {
          if k > 0 {
            assert s[1..][k - 1..] == s[k..];
          }
        }
      }
    }
  }

  /** `LIKE '%p%'` for a literal `p` is the substring test. */
  lemma LikeContains(s: string, p: string)
    requires Literal(p)
    ensures Like(s, "%" + p + "%") <==> IsSubstring(p, s)
  {
    assert "%" + p + "%" == "%" + (p + "%");
    LikeLeadingPercent(s, p + "%");
    forall k | 0 <= k <= |s| ensures Like(s[k..], p + "%") <==> p <= s[k..] {
      LikePrefix(s[k..], p);
    }
  }

  /** `LOWER(s) LIKE LOWER(CONCAT('%', p, '%'))` for a literal `p` is case-insensitive containment. */
  lemma LowerLikeContains(s: string, p: string)
    requires Literal(p)
    ensures Like(ToLower(s), ToLower("%" + p + "%")) <==> IsSubstring(ToLower(p), ToLower(s))
  {
    ToLowerConcat("%" + p, "%");
    ToLowerConcat("%", p);
    assert ToLower("%") == "%";
    assert Literal(ToLower(p));
    LikeContains(ToLower(s), ToLower(p));
  }

  /** Java `Character.isWhitespace`: the Unicode space, line and paragraph separators other than
      the non-breaking ones, and the ASCII and information-separator controls. */
  predicate IsWhitespace(c: char) {
    var n := c as int;
    (0x09 <= n <= 0x0D) || (0x1C <= n <= 0x20) || n == 0x1680
    || (0x2000 <= n <= 0x2006) || (0x2008 <= n <= 0x200A)
    || n == 0x2028 || n == 0x2029 || n == 0x205F || n == 0x3000
  }

  /** Java `String.isBlank`: empty or only whitespace. */
  predicate IsBlank(s: string) {
    forall i :: 0 <= i < |s| ==> IsWhitespace(s[i])
  }

  /** Bean Validation `@NotBlank` as Hibernate Validator checks it: after trimming every
      character up to U+0020 from both ends, something is left. */
  predicate NotBlank(s: string) {
    exists i :: 0 <= i < |s| && s[i] > ' '
  }

  /** `@NotBlank` and `String.isBlank` disagree: an em space alone passes the first and is blank
      for the second, and a lone control character outside the whitespace set fails both. */
  lemma NotBlankIsNotIsBlank()
    ensures NotBlank("\U{2003}") && IsBlank("\U{2003}")
    ensures !NotBlank("\U{1}") && !IsBlank("\U{1}")
  {
    assert "\U{2003}"[0] > ' ';
    assert !IsWhitespace("\U{1}"[0]);
  }

  function DigitChar(d: nat): char
    requires d < 10
  {
    "0123456789"[d]
  }

  /** Decimal digits of a natural number, as `Integer.toString` writes them. */
  function NatToString(n: nat): string
    decreases n
  {
    if n < 10 then [DigitChar(n)] else NatToString(n / 10) + [DigitChar(n % 10)]
  }

  /** The decimal text of a natural number is never empty and never starts with a minus sign. */
  lemma {:induction false} NatToStringUnsigned(n: nat)
    ensures |NatToString(n)| > 0 && NatToString(n)[0] != '-'
    decreases n
  {
    if n >= 10 {
      NatToStringUnsigned(n / 10);
    }
  }

  function IntToString(n: int): string {
    if n < 0 then "-" + NatToString(-n) else NatToString(n)
  }

  /** `BigDecimal.toString` of an amount of scale 2 (the column scale of a money field), given
      in hundredths: "300.00", "-0.05". */
  function CentsToText(c: int): string {
    var a := if c < 0 then -c else c;
    (if c < 0 then "-" else "") + NatToString(a / 100) + "." + [DigitChar(a % 100 / 10), DigitChar(a % 10)]
  }
}
