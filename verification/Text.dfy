/** C string helpers shared by the protocol models: decimal numbers as printed by
    "%d" and read by atoi/atol, blank-separated tokens as cut by strtoken, and the
    strcmp order on keys. Strings never hold a NUL, as C strings. */
module Text {

  datatype Option<+T> = None | Some(value: T)

  // ----- decimal numbers -----

  predicate IsDigit(c: char) { '0' <= c <= '9' }

  function DigitChar(d: nat): (c: char)
    requires d < 10
    ensures IsDigit(c) && DigitValue(c) == d
  {
    (('0' as int) + d) as char
  }

  function DigitValue(c: char): (d: nat)
    requires IsDigit(c)
    ensures d < 10
  {
    (c as int) - ('0' as int)
  }

  /** The decimal digits of `n`, most significant first. */
  function Digits(n: nat): (s: string)
    ensures |s| > 0
    ensures forall i :: 0 <= i < |s| ==> IsDigit(s[i])
  {
    if n < 10 then [DigitChar(n)] else Digits(n / 10) + [DigitChar(n % 10)]
  }

  /** "%d". */
  function Decimal(n: int): (s: string)
    ensures |s| > 0
    ensures forall i :: 0 <= i < |s| ==> IsDigit(s[i]) || s[i] == '-'
  {
    if n < 0 then "-" + Digits(-n) else Digits(n)
  }

  function ReadDigits(s: string, acc: nat): nat {
    if s == "" || !IsDigit(s[0]) then acc
    else ReadDigits(s[1..], acc * 10 + DigitValue(s[0]))
  }

  /** atoi and atol: leading white space, an optional sign, then digits up to the
      first other character. */
  function Atoi(s: string): int {
    if s == "" then 0
    else if s[0] == ' ' || s[0] == '\t' then Atoi(s[1..])
    else if s[0] == '-' then 0 - ReadDigits(s[1..], 0)
    else if s[0] == '+' then ReadDigits(s[1..], 0)
    else ReadDigits(s, 0)
  }

  lemma {:induction false} ReadDigitsSnoc(s: string, c: char, acc: nat)
    requires IsDigit(c)
    requires forall i :: 0 <= i < |s| ==> IsDigit(s[i])
    ensures ReadDigits(s + [c], acc) == ReadDigits(s, acc) * 10 + DigitValue(c)
  {
    if s == "" {
      assert (s + [c])[1..] == "";
    } else {
      assert (s + [c])[1..] == s[1..] + [c];
      ReadDigitsSnoc(s[1..], c, acc * 10 + DigitValue(s[0]));
    }
  }

  lemma {:induction false} ReadDigitsOfDigits(n: nat)
    ensures ReadDigits(Digits(n), 0) == n
  {
    if n < 10 {
      assert Digits(n)[1..] == "";
    } else {
      ReadDigitsOfDigits(n / 10);
      ReadDigitsSnoc(Digits(n / 10), DigitChar(n % 10), 0);
    }
  }

  /** Every integer survives printing and reading. */
  lemma AtoiDecimal(n: int)
    ensures Atoi(Decimal(n)) == n
  {
    if n < 0 {
      ReadDigitsOfDigits(-n);
      assert Decimal(n)[1..] == Digits(-n);
    } else {
      ReadDigitsOfDigits(n);
      assert IsDigit(Digits(n)[0]);
    }
  }

  lemma {:induction false} DigitsLength(n: nat, k: nat)
    requires n < Power10(k) && k > 0
    ensures |Digits(n)| <= k
  {
    assert Power10(0) == 1;
    if n >= 10 {
      DigitsLength(n / 10, k - 1);
    }
  }

  function Power10(k: nat): (p: nat)
    ensures p >= 1
  {
    if k == 0 then 1 else 10 * Power10(k - 1)
  }

  lemma LargePowers()
    ensures Power10(9) == 1_000_000_000 && Power10(10) == 10_000_000_000
  {
    assert Power10(1) == 10 && Power10(2) == 100 && Power10(3) == 1000 && Power10(4) == 10000 && Power10(5) == 100000;
    assert Power10(6) == 1000000 && Power10(7) == 10000000 && Power10(8) == 100000000;
  }

  // ----- times -----

  const BILLION := 1_000_000_000

  /** The last `k` decimal digits of `n`, with leading zeros. */
  function Padded(n: nat, k: nat): (s: string)
    ensures |s| == k
    ensures forall i :: 0 <= i < |s| ==> IsDigit(s[i])
  {
    if k == 0 then "" else Padded(n / 10, k - 1) + [DigitChar(n % 10)]
  }

  /** "%lu" of ircsprintf: nine digits, with leading zeros, and before them one character for what is
      beyond a billion. */
  function TimeText(ts: nat): string {
    if ts == 0 then "0"
    else (if ts >= BILLION then [((48 + ts / BILLION) % 256) as char] else "") + Padded(ts % BILLION, 9)
  }

  lemma TenTimes(a: nat, p: nat)
    ensures (a * p) * 10 == a * (10 * p)
  {
  }

  lemma {:induction false} PaddedReads(n: nat, k: nat, acc: nat)
    requires n < Power10(k)
    ensures ReadDigits(Padded(n, k), acc) == acc * Power10(k) + n
  {
    if k == 0 {
      assert Padded(n, 0) == "" && acc * 1 == acc;
    } else {
      var p := Power10(k - 1);
      PaddedReads(n / 10, k - 1, acc);
      ReadDigitsSnoc(Padded(n / 10, k - 1), DigitChar(n % 10), acc);
      TenTimes(acc, p);
      assert ReadDigits(Padded(n, k), acc) == (acc * p + n / 10) * 10 + n % 10;
    }
  }

  lemma TimeTail(ts: nat)
    ensures ReadDigits(Padded(ts % BILLION, 9), 0) == ts % BILLION
    ensures forall d: nat :: ReadDigits(Padded(ts % BILLION, 9), d) == d * BILLION + ts % BILLION
    ensures Atoi(Padded(ts % BILLION, 9)) == ts % BILLION
  {
    LargePowers();
    forall d: nat ensures ReadDigits(Padded(ts % BILLION, 9), d) == d * BILLION + ts % BILLION {
      PaddedReads(ts % BILLION, 9, d);
    }
    var p := Padded(ts % BILLION, 9);
    assert IsDigit(p[0]);
  }

  /** A time reads back as it was if and only if it has at most ten digits. */
  lemma TimeReads(ts: nat)
    ensures Atoi(TimeText(ts)) == ts <==> ts < 10 * BILLION
  {
    hide Padded;
    if ts == 0 {
      assert "0"[1..] == "";
    } else {
      TimeTail(ts);
      var p := Padded(ts % BILLION, 9);
      if ts >= BILLION {
        var c := ((48 + ts / BILLION) % 256) as char;
        assert TimeText(ts)[1..] == p;
        if IsDigit(c) {
          var d := DigitValue(c);
          assert ReadDigits(TimeText(ts), 0) == ReadDigits(p, d) == d * BILLION + ts % BILLION;
        } else {
          assert ReadDigits(TimeText(ts), 0) == 0;
        }
        if ts < 10 * BILLION { assert IsDigit(c) && DigitValue(c) == ts / BILLION; }
      } else {
        assert TimeText(ts) == p;
      }
    }
  }

  lemma TimeMiddle(ts: nat)
    requires ts < 10 * BILLION
    ensures Middle(TimeText(ts)) && |TimeText(ts)| == if ts == 0 then 1 else if ts < BILLION then 9 else 10
  {
  }

  // ----- blank separated tokens -----

  /** A token: not empty and free of blanks. */
  predicate Word(s: string) { s != "" && ' ' !in s }

  predicate Words(ts: seq<string>) { forall i :: 0 <= i < |ts| ==> Word(ts[i]) }

  /** Length of the blank-free prefix of `s`. */
  function WordLen(s: string): (k: nat)
    ensures k <= |s|
    ensures ' ' !in s[..k]
    ensures k < |s| ==> s[k] == ' '
  {
    if s == "" || s[0] == ' ' then 0
    else
      assert s[..1 + WordLen(s[1..])] == [s[0]] + s[1..][..WordLen(s[1..])];
      1 + WordLen(s[1..])
  }

  /** What repeated calls of strtoken with " " return. */
  function Tokens(s: string): (ts: seq<string>)
    ensures Words(ts)
    decreases |s|
  {
    if s == "" then []
    else if s[0] == ' ' then Tokens(s[1..])
    else [s[..WordLen(s)]] + Tokens(s[WordLen(s)..])
  }

  /** Each token followed by one blank, as the name lists are built. */
  function Spaced(ts: seq<string>): string {
    if ts == [] then "" else ts[0] + " " + Spaced(ts[1..])
  }

  lemma {:induction false} WordLenSplit(w: string, rest: string)
    requires ' ' !in w
    requires rest == "" || rest[0] == ' '
    ensures WordLen(w + rest) == |w|
  {
    if w == "" {
      assert w + rest == rest;
    } else {
      assert (w + rest)[1..] == w[1..] + rest;
      WordLenSplit(w[1..], rest);
    }
  }

  lemma TokensCons(w: string, rest: string)
    requires Word(w)
    requires rest == "" || rest[0] == ' '
    ensures Tokens(w + rest) == [w] + Tokens(rest)
  {
    WordLenSplit(w, rest);
    assert (w + rest)[..|w|] == w && (w + rest)[|w|..] == rest;
  }

  lemma {:induction false} TokensSpaced(ts: seq<string>)
    requires Words(ts)
    ensures Tokens(Spaced(ts)) == ts
  {
    if ts != [] {
      var rest := " " + Spaced(ts[1..]);
      assert Spaced(ts) == ts[0] + rest;
      TokensCons(ts[0], rest);
      assert rest[1..] == Spaced(ts[1..]);
      TokensSpaced(ts[1..]);
    }
  }

  /** How a line is cut into parameters (src/parse.c): at blanks, and a parameter that
      starts with a colon takes the rest of the line. */
  function Params(s: string): seq<string>
    decreases |s|
  {
    if s == "" then []
    else if s[0] == ' ' then Params(s[1..])
    else if s[0] == ':' then [s[1..]]
    else [s[..WordLen(s)]] + Params(s[WordLen(s)..])
  }

  /** A parameter that Params gives back as it was. */
  predicate Middle(s: string) { Word(s) && s[0] != ':' }

  lemma ParamsCons(w: string, rest: string)
    requires Middle(w)
    requires rest != "" && rest[0] == ' '
    ensures Params(w + rest) == [w] + Params(rest[1..])
  {
    WordLenSplit(w, rest);
    assert (w + rest)[..|w|] == w && (w + rest)[|w|..] == rest;
  }

  lemma {:induction false} ParamsSpaced(ts: seq<string>, last: string)
    requires forall i :: 0 <= i < |ts| ==> Middle(ts[i])
    ensures Params(Spaced(ts) + ":" + last) == ts + [last]
  {
    if ts == [] {
      assert Spaced(ts) + ":" + last == ":" + last;
      assert (":" + last)[1..] == last;
    } else {
      var rest := Spaced(ts[1..]) + ":" + last;
      assert Spaced(ts) + ":" + last == ts[0] + (" " + rest);
      ParamsCons(ts[0], " " + rest);
      assert (" " + rest)[1..] == rest;
      ParamsSpaced(ts[1..], last);
      assert ts == [ts[0]] + ts[1..];
    }
  }

  /** `s` without its last character when that is a blank (channel.c cuts it so). */
  function ChopBlank(s: string): string {
    if s != "" && s[|s| - 1] == ' ' then s[..|s| - 1] else s
  }

  lemma {:induction false} TokensChop(ts: seq<string>)
    requires Words(ts)
    ensures Tokens(ChopBlank(Spaced(ts))) == ts
  {
    if ts == [] {
    } else if |ts| == 1 {
      assert Spaced(ts[1..]) == "";
      assert Spaced(ts) == ts[0] + " ";
      assert ChopBlank(Spaced(ts)) == ts[0] + "";
      TokensCons(ts[0], "");
    } else {
      var tail := Spaced(ts[1..]);
      SpacedEndsInBlank(ts[1..]);
      var rest := " " + ChopBlank(tail);
      assert Spaced(ts) == ts[0] + " " + tail;
      assert ChopBlank(Spaced(ts)) == ts[0] + rest;
      TokensCons(ts[0], rest);
      assert rest[1..] == ChopBlank(tail);
      TokensChop(ts[1..]);
    }
  }

  lemma {:induction false} SpacedEndsInBlank(ts: seq<string>)
    requires ts != []
    ensures Spaced(ts) != "" && Spaced(ts)[|Spaced(ts)| - 1] == ' '
  {
    if |ts| > 1 {
      SpacedEndsInBlank(ts[1..]);
    } else {
      assert Spaced(ts[1..]) == "";
    }
  }

  lemma {:induction false} SpacedConcat(a: seq<string>, b: seq<string>)
    ensures Spaced(a + b) == Spaced(a) + Spaced(b)
  {
    if a == [] {
      assert a + b == b;
    } else {
      SpacedConcat(a[1..], b);
      assert (a + b)[1..] == a[1..] + b;
    }
  }

  // ----- strcmp -----

  /** strcmp(a, b) < 0. */
  predicate StrLess(a: string, b: string) {
    if b == "" then false
    else if a == "" then true
    else a[0] < b[0] || (a[0] == b[0] && StrLess(a[1..], b[1..]))
  }

  /** The strcmp-greater of two strings. */
  function StrMax(a: string, b: string): string { if StrLess(a, b) then b else a }

  lemma {:induction false} StrTotal(a: string, b: string)
    ensures !(StrLess(a, b) && StrLess(b, a))
    ensures a == b || StrLess(a, b) || StrLess(b, a)
  {
    if a != "" && b != "" {
      StrTotal(a[1..], b[1..]);
      if a[0] == b[0] && a[1..] == b[1..] {
        assert a == [a[0]] + a[1..] && b == [b[0]] + b[1..];
      }
    }
  }

  lemma {:induction false} StrTransitive(a: string, b: string, c: string)
    requires StrLess(a, b) && StrLess(b, c)
    ensures StrLess(a, c)
  {
    if a != "" && b[0] == a[0] && c[0] == b[0] {
      StrTransitive(a[1..], b[1..], c[1..]);
    }
  }

  /** strcmp-maximum is a semilattice with the empty string at the bottom. */
  lemma StrMaxLaws(a: string, b: string, c: string)
    ensures StrMax(a, a) == a
    ensures StrMax(a, b) == StrMax(b, a)
    ensures StrMax(a, StrMax(b, c)) == StrMax(StrMax(a, b), c)
    ensures StrMax(a, "") == a && StrMax("", a) == a
  {
    StrTotal(a, b);
    StrTotal(b, c);
    StrTotal(a, c);
    StrTotal(a, a);
    if StrLess(a, b) && StrLess(b, c) { StrTransitive(a, b, c); }
    if StrLess(b, a) && StrLess(c, b) { StrTransitive(c, b, a); }
    if StrLess(a, c) && StrLess(c, b) { StrTransitive(a, c, b); }
    if StrLess(b, a) && StrLess(a, c) { StrTransitive(b, a, c); }
    if StrLess(c, a) && StrLess(a, b) { StrTransitive(c, a, b); }
    if StrLess(b, c) && StrLess(c, a) { StrTransitive(b, c, a); }
  }
}
