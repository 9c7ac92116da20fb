/** Reading an IPv4 address from text: `parse_ip` of ingest/rust-ingestor/src/main.rs, and the text the
  packet parser hands it. */
module DottedQuad {
  import opened Wrappers

  datatype Quad = Quad(a: nat, b: nat, c: nat, d: nat)

  predicate IsDigit(c: char) { '0' <= c <= '9' }

  function Digit(n: nat): char
    requires n < 10
  {
    ('0' as int + n) as char
  }

  function Value(s: string): nat
    requires forall i | 0 <= i < |s| :: IsDigit(s[i])
  {
    if s == "" then 0
    else assert IsDigit(s[|s| - 1]); 10 * Value(s[..|s| - 1]) + (s[|s| - 1] as int - '0' as int)
  }

  /** Rust's `str::parse::<u8>`: an optional plus sign, at least one digit, at most 255. */
  function ParseU8(s: string): Option<nat> {
    var digits := if s != "" && s[0] == '+' then s[1..] else s;
    if digits != "" && (forall i | 0 <= i < |digits| :: IsDigit(digits[i])) && Value(digits) < 256
    then Some(Value(digits))
    else None
  }

  function Split(s: string): (parts: seq<string>)
    ensures |parts| >= 1
  {
    if s == "" then [""]
    else if s[0] == '.' then [""] + Split(s[1..])
    else var rest := Split(s[1..]); [[s[0]] + rest[0]] + rest[1..]
  }

  /** The parts that parse; the others are dropped, not reported. */
  function Numbers(parts: seq<string>): seq<nat> {
    if parts == [] then []
    else (match ParseU8(parts[0]) case Some(n) => [n] case None => []) + Numbers(parts[1..])
  }

  function ParseIp(s: string): Option<Quad> {
    var ns := Numbers(Split(s));
    if |ns| == 4 then Some(Quad(ns[0], ns[1], ns[2], ns[3])) else None
  }

  // ----- Printing, and the way back -----

  function Show(n: nat): string {
    if n < 10 then [Digit(n)] else Show(n / 10) + [Digit(n % 10)]
  }

  function ShowQuad(q: Quad): string {
    Show(q.a) + "." + (Show(q.b) + "." + (Show(q.c) + "." + Show(q.d)))
  }

  predicate IsAddress(q: Quad) {
    q.a < 256 && q.b < 256 && q.c < 256 && q.d < 256
  }

  lemma {:induction false} ShowDigits(n: nat)
    ensures Show(n) != ""
    ensures forall i | 0 <= i < |Show(n)| :: IsDigit(Show(n)[i])
    ensures Value(Show(n)) == n
  {
    if n < 10 {
      assert Show(n)[..0] == "";
    } else {
      ShowDigits(n / 10);
      assert Show(n)[..|Show(n)| - 1] == Show(n / 10);
    }
  }

  lemma ParseShow(n: nat)
    requires n < 256
    ensures ParseU8(Show(n)) == Some(n)
  {
    ShowDigits(n);
    assert IsDigit(Show(n)[0]);
  }

  lemma {:induction false} SplitPart(p: string, rest: string)
    requires forall i | 0 <= i < |p| :: IsDigit(p[i])
    ensures Split(p) == [p]
    ensures Split(p + "." + rest) == [p] + Split(rest)
  {
    if p == "" {
      assert p + "." + rest == "." + rest && ("." + rest)[1..] == rest;
    } else {
      SplitPart(p[1..], rest);
      assert IsDigit(p[0]);
      assert [p[0]] + p[1..] == p;
      assert (p + "." + rest)[1..] == p[1..] + "." + rest;
      assert ([p[1..]] + Split(rest))[1..] == Split(rest);
    }
  }

  lemma NumbersCons(n: nat, parts: seq<string>)
    requires n < 256
    ensures Numbers([Show(n)] + parts) == [n] + Numbers(parts)
  {
    ParseShow(n);
    assert ([Show(n)] + parts)[1..] == parts;
  }

  /** Every address survives being printed and parsed. */
  lemma ParseIpRoundTrip(q: Quad)
    requires IsAddress(q)
    ensures ParseIp(ShowQuad(q)) == Some(q)
  {
    var t3 := Show(q.c) + "." + Show(q.d);
    var t2 := Show(q.b) + "." + t3;
    ShowDigits(q.a);
    ShowDigits(q.b);
    ShowDigits(q.c);
    ShowDigits(q.d);
    SplitPart(Show(q.a), t2);
    SplitPart(Show(q.b), t3);
    SplitPart(Show(q.c), Show(q.d));
    SplitPart(Show(q.d), "");
    NumbersCons(q.d, []);
    assert [Show(q.d)] + [] == [Show(q.d)];
    NumbersCons(q.c, [Show(q.d)]);
    NumbersCons(q.b, [Show(q.c)] + [Show(q.d)]);
    NumbersCons(q.a, [Show(q.b)] + ([Show(q.c)] + [Show(q.d)]));
    assert Numbers(Split(ShowQuad(q))) == [q.a] + ([q.b] + ([q.c] + ([q.d] + [])));
  }

  lemma {:induction false} NumbersRange(parts: seq<string>)
    ensures forall i | 0 <= i < |Numbers(parts)| :: Numbers(parts)[i] < 256
    ensures |Numbers(parts)| <= |parts|
  {
    if parts != [] {
      NumbersRange(parts[1..]);
    }
  }

  /** Whatever parses is an address. */
  lemma ParseIpRange(s: string)
    ensures ParseIp(s).Some? ==> IsAddress(ParseIp(s).value) && |Split(s)| >= 4
  {
    NumbersRange(Split(s));
  }
}
