/** Continuation values on disk are decimal text (cont.c:19-57): `sprintf("%llu")` writes
    them, `simple_strtoull` reads them back up to the terminator. Paths of continuation
    files are printed the same way (cont.c:238, cont.c:397). */
module Decimal {
  import opened PackedNumber

  const NUL: char := '\0'

  function DigitChar(d: nat): char
    requires d < 10
  {
    '0' + d as char
  }

  predicate IsDigit(c: char) {
    '0' <= c <= '9'
  }

  function DigitValue(c: char): nat
    requires IsDigit(c)
  {
    (c - '0') as nat
  }

  /** What "%llu" prints. */
  function Print(v: nat): string {
    if v < 10 then [DigitChar(v)] else Print(v / 10) + [DigitChar(v % 10)]
  }

  /** What simple_strtoull computes in base 10, continuing from `acc`: digits are folded in,
      modulo 2^64, until the first character that is no digit. */
  function ParseFrom(s: string, acc: u64): u64 {
    if s == [] || !IsDigit(s[0]) then acc
    else ParseFrom(s[1..], (acc * 10 + DigitValue(s[0])) % TWO64)
  }

  function Parse(s: string): u64 {
    ParseFrom(s, 0)
  }

  lemma {:induction false} PrintIsDigits(v: nat)
    ensures forall k :: 0 <= k < |Print(v)| ==> IsDigit(Print(v)[k])
    ensures |Print(v)| >= 1
  {
    if v >= 10 {
      PrintIsDigits(v / 10);
    }
  }

  /** A printed number keeps within `n` digits when it is below 10^n. */
  lemma {:induction false} PrintLength(v: nat, n: nat)
    requires n >= 1 && v < Pow10(n)
    ensures |Print(v)| <= n
  {
    if v >= 10 {
      PrintLength(v / 10, n - 1);
    }
  }

  function Pow10(n: nat): (r: nat)
    ensures r >= 1
  {
    if n == 0 then 1 else 10 * Pow10(n - 1)
  }

  /** One more digit. */
  lemma ParseDigit(v: nat, rest: string)
    requires 10 <= v < TWO64
    ensures ParseFrom([DigitChar(v % 10)] + rest, v / 10) == ParseFrom(rest, v)
  {
    var s := [DigitChar(v % 10)] + rest;
    assert s[1..] == rest && DigitValue(s[0]) == v % 10;
    assert (v / 10 * 10 + v % 10) % TWO64 == v;
  }

  /** Reading a printed number, whatever follows it, goes on from that number. */
  lemma {:induction false} ParsePrinted(v: nat, rest: string)
    requires v < TWO64
    ensures ParseFrom(Print(v) + rest, 0) == ParseFrom(rest, v)
  {
    if v < 10 {
      assert (Print(v) + rest)[1..] == rest;
    } else {
      var tail := [DigitChar(v % 10)] + rest;
      assert Print(v) + rest == Print(v / 10) + tail;
      ParsePrinted(v / 10, tail);
      ParseDigit(v, rest);
    }
  }

  /** The text `get_set_cont_data` stores: digits and the terminator. */
  function Stored(v: u64): string {
    Print(v) + [NUL]
  }

  /** A u64 survives storage as text, and its text with the terminator takes at most 21 of
      the 50 bytes of the buffer. */
  lemma StoredRoundTrip(v: u64)
    ensures Parse(Stored(v)) == v
    ensures |Stored(v)| <= 21
  {
    ParsePrinted(v, [NUL]);
    assert Pow10(5) == 1_00000;
    assert Pow10(10) == 1_00000_00000;
    assert Pow10(15) == 1_00000_00000_00000;
    assert Pow10(20) == 1_00000_00000_00000_00000;
    PrintLength(v, 20);
  }

  lemma DivideTwice(v: nat, p: nat)
    requires p >= 1
    ensures v / 10 / p == v / (10 * p)
  {
    var q, r := v / 10, v % 10;
    var a, b := q / p, q % p;
    assert q == a * p + b && v == 10 * (a * p + b) + r;
    assert 10 * (a * p) == (10 * p) * a;
    assert v == (10 * p) * a + (10 * b + r) && 10 * b + r < 10 * p;
    QuotientIs(v, 10 * p, a, 10 * b + r);
  }

  lemma QuotientIs(v: nat, m: nat, q: nat, r: nat)
    requires m >= 1 && v == m * q + r && r < m
    ensures v / m == q
  {
    var q', r' := v / m, v % m;
    assert m * q' + r' == m * q + r;
    if q' > q {
      AtLeastOnce(m, q' - q);
      assert false;
    } else if q' < q {
      AtLeastOnce(m, q - q');
      assert false;
    }
  }

  lemma AtLeastOnce(m: nat, k: nat)
    requires k >= 1
    ensures m * k >= m
  {
  }

  /** The text is the decimal one: counted from the end, character `i` is the digit of 10^i, and
      there is no leading zero. */
  lemma {:induction false} PrintIsDecimal(v: nat, i: nat)
    requires i < |Print(v)|
    ensures Print(v)[|Print(v)| - 1 - i] == DigitChar(v / Pow10(i) % 10)
    ensures v >= 1 ==> Print(v)[0] != '0'
  {
    if v >= 10 {
      PrintIsDigits(v / 10);
      if i == 0 {
        PrintIsDecimal(v / 10, 0);
      } else {
        PrintIsDecimal(v / 10, i - 1);
        DivideTwice(v, Pow10(i - 1));
      }
    }
  }

  // ---- Paths -----------------------------------------------------------------------------

  /** "/chunk%llu/%llu/%llu" */
  function ContPath(to: u64, fromChunk: u64, fromIno: u64): string {
    "/chunk" + (Print(to) + ("/" + (Print(fromChunk) + ("/" + Print(fromIno)))))
  }

  lemma PrintThenSlash(a: u64, x: string, b: u64, y: string)
    requires Print(a) + ("/" + x) == Print(b) + ("/" + y)
    ensures a == b && x == y
  {
    ParsePrinted(a, "/" + x);
    ParsePrinted(b, "/" + y);
    assert (Print(a) + ("/" + x))[|Print(a)| + 1..] == x;
    assert (Print(b) + ("/" + y))[|Print(b)| + 1..] == y;
  }

  /** No two continuations share a path. */
  lemma ContPathInjective(to: u64, chunk: u64, ino: u64, to': u64, chunk': u64, ino': u64)
    requires ContPath(to, chunk, ino) == ContPath(to', chunk', ino')
    ensures to == to' && chunk == chunk' && ino == ino'
  {
    var rest := Print(to) + ("/" + (Print(chunk) + ("/" + Print(ino))));
    var rest' := Print(to') + ("/" + (Print(chunk') + ("/" + Print(ino'))));
    assert ContPath(to, chunk, ino)[6..] == rest;
    assert ContPath(to', chunk', ino')[6..] == rest';
    PrintThenSlash(to, Print(chunk) + ("/" + Print(ino)), to', Print(chunk') + ("/" + Print(ino')));
    PrintThenSlash(chunk, Print(ino), chunk', Print(ino'));
    assert Print(ino) + [] == Print(ino) && Print(ino') + [] == Print(ino');
    ParsePrinted(ino, []);
    ParsePrinted(ino', []);
  }

  /** What stands between the slashes. */
  function Components(s: string): (cs: seq<string>)
    ensures |cs| >= 1
  {
    if s == "" then [""]
    else
      var cs := Components(s[1..]);
      if s[0] == '/' then [""] + cs else [[s[0]] + cs[0]] + cs[1..]
  }

  lemma {:induction false} FirstComponent(x: string, y: string)
    requires '/' !in x
    ensures Components(x) == [x]
    ensures Components(x + ("/" + y)) == [x] + Components(y)
  {
    if x == "" {
      assert (x + ("/" + y))[1..] == y;
    } else {
      assert (x + ("/" + y))[1..] == x[1..] + ("/" + y);
      assert [x[0]] + x[1..] == x;
      FirstComponent(x[1..], y);
    }
  }

  lemma PathComponents(to: string, chunk: string, ino: string)
    requires '/' !in to && '/' !in chunk && '/' !in ino
    ensures Components("/" + (to + ("/" + (chunk + ("/" + ino))))) == ["", to, chunk, ino]
  {
    var rest := chunk + ("/" + ino);
    FirstComponent(ino, "");
    FirstComponent(chunk, ino);
    FirstComponent(to, rest);
    FirstComponent("", to + ("/" + rest));
    assert "" + ("/" + (to + ("/" + rest))) == "/" + (to + ("/" + rest));
  }

  /** The path says where the continuation is and what it continues: in the client file system
      mounted at "/chunk<to>", in the directory named after the chunk of the predecessor, the file
      named after its inode; and each number can be read off. */
  lemma PathParts(to: u64, chunk: u64, ino: u64)
    ensures var cs := Components(ContPath(to, chunk, ino));
            && |cs| == 4 && cs[0] == "" && |cs[1]| >= 5 && cs[1][..5] == "chunk"
            && Parse(cs[1][5..]) == to && Parse(cs[2]) == chunk && Parse(cs[3]) == ino
  {
    NoSlash(to);
    NoSlash(chunk);
    NoSlash(ino);
    var mount := "chunk" + Print(to);
    assert mount[..5] == "chunk" && mount[5..] == Print(to);
    PathComponents(mount, Print(chunk), Print(ino));
    assert ContPath(to, chunk, ino) == "/" + (mount + ("/" + (Print(chunk) + ("/" + Print(ino)))));
  }

  lemma NoSlash(v: u64)
    ensures '/' !in Print(v) && '/' !in "chunk" + Print(v)
    ensures Parse(Print(v)) == v
  {
    PrintIsDigits(v);
    ParsePrinted(v, []);
    assert Print(v) + [] == Print(v);
  }
}
