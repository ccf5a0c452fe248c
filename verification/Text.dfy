/** The string primitives the parsers use: decimal numbers, trimming, splitting and joining. */
module Text {
  import opened Wrappers

  // ----- Decimal numbers -----

  const INT64_MAX: int := 0x7FFF_FFFF_FFFF_FFFF

  predicate IsDigit(c: char) {
    '0' <= c <= '9'
  }

  function DigitChar(d: nat): (c: char)
    requires d < 10
    ensures IsDigit(c) && c as int - '0' as int == d
  {
    ('0' as int + d) as char
  }

  function Itoa(n: nat): (s: string)
    ensures s != "" && forall i :: 0 <= i < |s| ==> IsDigit(s[i])
  {
    if n < 10 then [DigitChar(n)] else Itoa(n / 10) + [DigitChar(n % 10)]
  }

  // The value of a digit string, or nothing when some character is not a digit.
  function Digits(s: string): Option<nat> {
    if s == "" then Some(0)
    else match Digits(s[..|s| - 1])
         case None => None
         case Some(v) =>
           var c := s[|s| - 1];
           if IsDigit(c) then Some(10 * v + (c as int - '0' as int)) else None
  }

  // strconv.Atoi: an optional sign, at least one digit, nothing else, and a 64-bit result.
  function Atoi(s: string): Option<int> {
    var signed := s != "" && (s[0] == '-' || s[0] == '+');
    var body := if signed then s[1..] else s;
    if body == "" then None
    else match Digits(body)
         case None => None
         case Some(v) =>
           var n: int := if signed && s[0] == '-' then 0 - v else v;
           if -INT64_MAX - 1 <= n <= INT64_MAX then Some(n) else None
  }

  lemma {:induction false} DigitsOfItoa(n: nat)
    ensures Digits(Itoa(n)) == Some(n)
  {
    if n < 10 {
      assert Itoa(n)[..|Itoa(n)| - 1] == "";
    } else {
      DigitsOfItoa(n / 10);
      assert Itoa(n)[..|Itoa(n)| - 1] == Itoa(n / 10);
    }
  }

  lemma AtoiOfItoa(n: nat)
    requires n <= INT64_MAX
    ensures Atoi(Itoa(n)) == Some(n)
  {
    DigitsOfItoa(n);
    assert IsDigit(Itoa(n)[0]);
  }

  lemma ItoaInjective(m: nat, n: nat)
    ensures Itoa(m) == Itoa(n) <==> m == n
  {
    DigitsOfItoa(m);
    DigitsOfItoa(n);
  }

  function PowerOfTen(n: nat): nat {
    if n == 0 then 1 else 10 * PowerOfTen(n - 1)
  }

  predicate AllDigits(s: string) {
    forall i :: 0 <= i < |s| ==> '0' <= s[i] <= '9'
  }

  lemma {:induction false} DigitsExactly(s: string)
    ensures Digits(s).Some? <==> AllDigits(s)
  {
    if s != "" {
      DigitsExactly(s[..|s| - 1]);
      assert s == s[..|s| - 1] + [s[|s| - 1]];
    }
  }

  lemma DigitsAppend(s: string, c: char)
    requires Digits(s).Some? && IsDigit(c)
    ensures Digits(s + [c]) == Some(10 * Digits(s).value + (c as int - '0' as int))
  {
    assert (s + [c])[..|s|] == s;
  }

  lemma PlaceArithmetic(v: nat, p: nat, w: nat, d: nat)
    ensures v * (10 * p) + (10 * w + d) == 10 * (v * p + w) + d
  {
  }

  lemma TenTimes(n: nat)
    ensures PowerOfTen(0) == 1 && PowerOfTen(n + 1) == 10 * PowerOfTen(n)
  {
  }

  lemma OneDigit(c: char)
    requires IsDigit(c)
    ensures Digits([c]) == Some(c as int - '0' as int) && Digits("") == Some(0)
  {
    DigitsAppend("", c);
    assert "" + [c] == [c];
  }

  // Place value: the digits in front count for a power of ten more each.
  lemma {:induction false} PlaceValue(a: string, b: string)
    requires AllDigits(a) && AllDigits(b)
    ensures Digits(a).Some? && Digits(b).Some? && Digits(a + b).Some?
    ensures Digits(a + b).value == Digits(a).value * PowerOfTen(|b|) + Digits(b).value
    ensures |b| == 1 ==> Digits(b).value == b[0] as int - '0' as int
  {
    hide Digits, PowerOfTen;
    DigitsExactly(a);
    DigitsExactly(b);
    if b == "" {
      assert a + b == a;
      TenTimes(0);
      OneDigit('0');
    } else {
      var front, c := b[..|b| - 1], b[|b| - 1];
      assert b == front + [c] && a + b == a + front + [c];
      PlaceValue(a, front);
      DigitsAppend(front, c);
      DigitsAppend(a + front, c);
      TenTimes(|front|);
      PlaceArithmetic(Digits(a).value, PowerOfTen(|front|), Digits(front).value, c as int - '0' as int);
      OneDigit(b[0]);
      assert |b| == 1 ==> b == [b[0]];
    }
  }

  // Exactly the digit strings are numbers, with or without one sign, as far as they fit 64 bits.
  lemma AtoiExactly(digits: string)
    requires digits != "" && AllDigits(digits)
    ensures Digits(digits).Some?
    ensures var n: int := Digits(digits).value;
            && Atoi(digits) == Atoi("+" + digits) == (if n <= INT64_MAX then Some(n) else None)
            && Atoi("-" + digits) == if n <= INT64_MAX + 1 then Some(-n) else None
  {
    DigitsExactly(digits);
    assert digits[0] != '-' && digits[0] != '+';
    assert ("+" + digits)[1..] == digits && ("-" + digits)[1..] == digits;
  }

  lemma OnlyDigitsAreNumbers(s: string)
    requires Atoi(s).Some?
    ensures exists digits :: digits != "" && AllDigits(digits) && s in {digits, "+" + digits, "-" + digits}
  {
    var body := if s[0] == '-' || s[0] == '+' then s[1..] else s;
    DigitsExactly(body);
    assert s == body || s == [s[0]] + body;
    assert body != "" && AllDigits(body) && s in {body, "+" + body, "-" + body};
  }

  // ----- Trimming -----

  // unicode.IsSpace
  predicate IsSpace(c: char) {
    c in "\t\n\U{000B}\U{000C}\r \U{0085}\U{00A0}\U{1680}\U{2028}\U{2029}\U{202F}\U{205F}\U{3000}"
    || '\U{2000}' <= c <= '\U{200A}'
  }

  function TrimLeft(s: string): string {
    if s != "" && IsSpace(s[0]) then TrimLeft(s[1..]) else s
  }

  function TrimRight(s: string): string {
    if s != "" && IsSpace(s[|s| - 1]) then TrimRight(s[..|s| - 1]) else s
  }

  function Trim(s: string): string {
    TrimRight(TrimLeft(s))
  }

  // No space at either end.
  predicate Trimmed(s: string) {
    s == "" || (!IsSpace(s[0]) && !IsSpace(s[|s| - 1]))
  }

  lemma {:induction false} TrimRightKeepsFront(s: string)
    requires s != "" && !IsSpace(s[0])
    ensures TrimRight(s) != "" && TrimRight(s)[0] == s[0] && !IsSpace(TrimRight(s)[|TrimRight(s)| - 1])
  {
    if IsSpace(s[|s| - 1]) { TrimRightKeepsFront(s[..|s| - 1]); }
  }

  lemma {:induction false} TrimLeftFront(s: string)
    ensures TrimLeft(s) == "" || !IsSpace(TrimLeft(s)[0])
    ensures forall c :: c in TrimLeft(s) ==> c in s
  {
    if s != "" && IsSpace(s[0]) { TrimLeftFront(s[1..]); }
  }

  lemma {:induction false} TrimRightChars(s: string)
    ensures forall c :: c in TrimRight(s) ==> c in s
  {
    if s != "" && IsSpace(s[|s| - 1]) { TrimRightChars(s[..|s| - 1]); }
  }

  // Trimming gives a string without outer spaces, made of characters of the original, and leaves
  // exactly such strings alone.
  lemma TrimTrims(s: string)
    ensures Trimmed(Trim(s))
    ensures forall c :: c in Trim(s) ==> c in s
    ensures Trim(s) == s <==> Trimmed(s)
  {
    hide IsSpace;
    TrimLeftFront(s);
    TrimRightChars(TrimLeft(s));
    if TrimLeft(s) != "" { TrimRightKeepsFront(TrimLeft(s)); }
  }

  // Of the ASCII characters these six are spaces.
  lemma AsciiSpaces(c: char)
    requires c < '\U{0080}'
    ensures IsSpace(c) <==> c in {' ', '\t', '\n', '\r', '\U{000B}', '\U{000C}'}
  {
  }

  predicate AllSpace(s: string) {
    forall i :: 0 <= i < |s| ==> IsSpace(s[i])
  }

  lemma {:induction false} TrimLeftSkips(a: string, t: string)
    requires AllSpace(a) && (t == "" || !IsSpace(t[0]))
    ensures TrimLeft(a + t) == t
  {
    hide IsSpace;
    if a == "" {
      assert a + t == t;
    } else {
      assert (a + t)[1..] == a[1..] + t;
      TrimLeftSkips(a[1..], t);
    }
  }

  lemma {:induction false} TrimRightSkips(t: string, b: string)
    requires AllSpace(b) && (t == "" || !IsSpace(t[|t| - 1]))
    ensures TrimRight(t + b) == t
  {
    hide IsSpace;
    if b == "" {
      assert t + b == t;
    } else {
      assert (t + b)[..|t + b| - 1] == t + b[..|b| - 1];
      TrimRightSkips(t, b[..|b| - 1]);
    }
  }

  // Whatever spaces surround a trimmed text, trimming gives it back.
  lemma TrimOfPadded(a: string, t: string, b: string)
    requires AllSpace(a) && AllSpace(b) && Trimmed(t)
    ensures Trim(a + t + b) == t
  {
    hide IsSpace;
    if t == "" {
      assert a + t + b == (a + b) + t;
      TrimLeftSkips(a + b, t);
      TrimRightSkips(t, "");
    } else {
      assert a + t + b == a + (t + b);
      TrimLeftSkips(a, t + b);
      TrimRightSkips(t, b);
    }
  }

  // ----- Splitting and joining -----

  // strings.Split on a one-character separator; never empty.
  function Split(s: string, sep: char): (parts: seq<string>)
    ensures parts != []
  {
    if s == "" then [""]
    else
      var rest := Split(s[1..], sep);
      if s[0] == sep then [""] + rest else [[s[0]] + rest[0]] + rest[1..]
  }

  function Join(parts: seq<string>, sep: char): string
    requires parts != []
  {
    if |parts| == 1 then parts[0] else parts[0] + [sep] + Join(parts[1..], sep)
  }

  lemma {:induction false} SplitHead(head: string, tail: string, sep: char)
    requires sep !in head
    ensures Split(head + [sep] + tail, sep) == [head] + Split(tail, sep)
  {
    var s := head + [sep] + tail;
    if head == "" {
      assert s[1..] == tail;
    } else {
      SplitHead(head[1..], tail, sep);
      assert head == [head[0]] + head[1..];
      assert s[1..] == head[1..] + [sep] + tail;
    }
  }

  lemma {:induction false} SplitWhole(s: string, sep: char)
    requires sep !in s
    ensures Split(s, sep) == [s]
  {
    if s != "" {
      SplitWhole(s[1..], sep);
      assert s == [s[0]] + s[1..];
    }
  }

  // Joining separator-free parts and splitting again gives the parts back.
  lemma {:induction false} SplitOfJoin(parts: seq<string>, sep: char)
    requires parts != [] && forall p :: p in parts ==> sep !in p
    ensures Split(Join(parts, sep), sep) == parts
  {
    if |parts| == 1 {
      SplitWhole(parts[0], sep);
    } else {
      SplitOfJoin(parts[1..], sep);
      SplitHead(parts[0], Join(parts[1..], sep), sep);
    }
  }

  lemma {:induction false} PartsHaveNoSeparator(s: string, sep: char)
    ensures forall p :: p in Split(s, sep) ==> sep !in p
  {
    if s != "" {
      PartsHaveNoSeparator(s[1..], sep);
      var rest := Split(s[1..], sep);
      forall p | p in Split(s, sep) ensures sep !in p {
        if s[0] != sep && p == [s[0]] + rest[0] {
          assert rest[0] in rest;
        }
      }
    }
  }

  // strings.SplitN(s, sep, 2): around the first separator, if there is one.
  function Cut(s: string, sep: char): Option<(string, string)> {
    if s == "" then None
    else if s[0] == sep then Some(("", s[1..]))
    else match Cut(s[1..], sep)
         case None => None
         case Some((a, b)) => Some(([s[0]] + a, b))
  }

  // The cut is at the first separator.
  lemma {:induction false} CutAtFirst(s: string, sep: char)
    ensures Cut(s, sep).None? <==> sep !in s
    ensures Cut(s, sep).Some? ==> var (a, b) := Cut(s, sep).value; sep !in a && s == a + [sep] + b
  {
    if s != "" && s[0] != sep { CutAtFirst(s[1..], sep); }
  }

  lemma {:induction false} CutOf(a: string, sep: char, b: string)
    requires sep !in a
    ensures Cut(a + [sep] + b, sep) == Some((a, b))
  {
    var s := a + [sep] + b;
    if a == "" {
      assert s[1..] == b;
    } else {
      CutOf(a[1..], sep, b);
      assert a == [a[0]] + a[1..];
      assert s[1..] == a[1..] + [sep] + b;
    }
  }
}
