/** Strings as both contracts use them: byte order, lower case, comma lists, and numbers
    stored as big-endian bytes or decimal digits. A character stands for one byte. */
module Text {

  datatype Option<+T> = None | Some(value: T)

  // ------------------------------------------------------------------ byte order

  // Go's a < b on strings.
  predicate Less(a: string, b: string) {
    if b == "" then false
    else if a == "" then true
    else a[0] < b[0] || (a[0] == b[0] && Less(a[1..], b[1..]))
  }

  lemma {:induction false} LessTotal(a: string, b: string)
    ensures !(Less(a, b) && Less(b, a))
    ensures a == b <==> !Less(a, b) && !Less(b, a)
  {
    if a != "" && b != "" {
      LessTotal(a[1..], b[1..]);
      assert a == [a[0]] + a[1..] && b == [b[0]] + b[1..];
    }
  }

  // The order of the first difference, or of the lengths where there is none.
  lemma {:induction false} LessExact(a: string, b: string, n: nat)
    requires n <= |a| && n <= |b| && a[..n] == b[..n]
    ensures n < |a| && n < |b| && a[n] != b[n] ==> (Less(a, b) <==> a[n] < b[n])
    ensures n == |a| < |b| ==> Less(a, b)
    ensures n == |b| ==> !Less(a, b)
  {
    if n > 0 {
      assert a[0] == a[..n][0] == b[..n][0] == b[0];
      assert a[1..][..n - 1] == a[..n][1..] == b[..n][1..] == b[1..][..n - 1];
      LessExact(a[1..], b[1..], n - 1);
    }
  }

  // ------------------------------------------------------------------ lower case

  function LowerChar(c: char): char {
    if 'A' <= c <= 'Z' then (c as int + 32) as char else c
  }

  function Lower(s: string): (r: string)
    ensures |r| == |s| && forall i :: 0 <= i < |s| ==> r[i] == LowerChar(s[i])
  {
    seq(|s|, i requires 0 <= i < |s| => LowerChar(s[i]))
  }

  predicate UpperLetter(c: char) { 'A' <= c <= 'Z' }

  predicate LowerLetter(c: char) { 'a' <= c <= 'z' }

  // No upper-case letter survives, each becomes the lower-case letter of the same place in
  // the alphabet, and everything else stays.
  lemma LowerExact(s: string)
    ensures forall i :: 0 <= i < |s| ==>
      && !UpperLetter(Lower(s)[i])
      && (if UpperLetter(s[i]) then LowerLetter(Lower(s)[i]) && Lower(s)[i] - 'a' == s[i] - 'A'
          else Lower(s)[i] == s[i])
    ensures Lower(s) == s <==> forall c | c in s :: !UpperLetter(c)
  {
    assert (forall c | c in s :: !UpperLetter(c)) ==> forall i :: 0 <= i < |s| ==> !UpperLetter(s[i]);
    if Lower(s) == s {
      forall c | c in s ensures !UpperLetter(c) {
        var i :| 0 <= i < |s| && s[i] == c;
        assert Lower(s)[i] == s[i];
      }
    }
  }

  lemma LowerTwice(s: string)
    ensures Lower(Lower(s)) == Lower(s)
  {
  }

  // ------------------------------------------------------------------ comma lists

  // Go's strings.Split(s, sep) for a one-character separator.
  function Split(s: string, sep: char): (parts: seq<string>)
    ensures 0 < |parts|
    decreases s
  {
    if s == "" then [""]
    else
      var rest := Split(s[1..], sep);
      if s[0] == sep then [""] + rest else [[s[0]] + rest[0]] + rest[1..]
  }

  lemma {:induction false} SplitNoSeparator(s: string, sep: char)
    requires sep !in s
    ensures Split(s, sep) == [s]
  {
    if s != "" {
      SplitNoSeparator(s[1..], sep);
      assert s == [s[0]] + s[1..];
    }
  }

  function Join(parts: seq<string>, sep: char): string {
    if parts == [] then "" else if |parts| == 1 then parts[0] else parts[0] + [sep] + Join(parts[1..], sep)
  }

  // The parts hold no separator and give back the text when joined by it.
  lemma {:induction false} SplitExact(s: string, sep: char)
    ensures Join(Split(s, sep), sep) == s
    ensures forall i :: 0 <= i < |Split(s, sep)| ==> sep !in Split(s, sep)[i]
  {
    if s != "" {
      SplitExact(s[1..], sep);
      var rest := Split(s[1..], sep);
      assert s == [s[0]] + s[1..];
      if s[0] == sep {
        assert ([""] + rest)[1..] == rest;
        assert "" + [sep] + s[1..] == s;
      } else {
        var parts := [[s[0]] + rest[0]] + rest[1..];
        assert parts[1..] == rest[1..];
        assert |rest| > 1 ==> [s[0]] + rest[0] + [sep] + Join(rest[1..], sep) == [s[0]] + Join(rest, sep);
      }
    }
  }

  // Appending one more element to a list appends exactly that element when it is read back.
  lemma {:induction false} SplitAppend(s: string, sep: char, t: string)
    requires sep !in t
    ensures Split(s + [sep] + t, sep) == Split(s, sep) + [t]
  {
    var whole := s + [sep] + t;
    if s == "" {
      assert whole[1..] == t;
      SplitNoSeparator(t, sep);
    } else {
      assert whole[1..] == s[1..] + [sep] + t && whole[0] == s[0];
      SplitAppend(s[1..], sep, t);
      var rest, tail := Split(s[1..], sep), Split(whole[1..], sep);
      assert tail == rest + [t];
      if s[0] == sep {
        assert [""] + tail == [""] + rest + [t];
      } else {
        assert tail[0] == rest[0] && tail[1..] == rest[1..] + [t];
      }
    }
  }

  predicate Space(c: char) {
    c == ' ' || '\t' <= c <= '\r'
  }

  // Go's strings.TrimSpace on ASCII text.
  function Trim(s: string): string
    decreases |s|
  {
    if s == "" then ""
    else if Space(s[0]) then Trim(s[1..])
    else if Space(s[|s| - 1]) then Trim(s[..|s| - 1])
    else s
  }

  // What is left is the text from place i up to place j; everything cut off is blank, and
  // what is left neither begins nor ends so.
  lemma {:induction false} TrimExact(s: string) returns (i: nat, j: nat)
    ensures i <= j <= |s| && Trim(s) == s[i..j]
    ensures forall k :: 0 <= k < i || j <= k < |s| ==> Space(s[k])
    ensures i < j ==> !Space(s[i]) && !Space(s[j - 1])
    decreases |s|
  {
    i, j := 0, |s|;
    if s != "" && Space(s[0]) {
      var rest := s[1..];
      i, j := TrimExact(rest);
      assert rest[i..j] == s[i + 1..j + 1];
      assert forall k :: 1 <= k < |s| ==> s[k] == rest[k - 1];
      i, j := i + 1, j + 1;
    } else if s != "" && Space(s[|s| - 1]) {
      var rest := s[..|s| - 1];
      i, j := TrimExact(rest);
      assert rest[i..j] == s[i..j];
      assert forall k :: 0 <= k < |rest| ==> s[k] == rest[k];
    }
  }

  lemma TrimNoSpace(s: string)
    requires forall c | c in s :: !Space(c)
    ensures Trim(s) == s
  {
  }

  // ------------------------------------------------------------------ numbers as text

  // Positional digits of n, most significant first; the empty string is zero.
  function Digits(n: nat, base: nat, zero: nat): string
    requires 2 <= base && zero + base <= 256
  {
    if n == 0 then "" else Digits(n / base, base, zero) + [(zero + n % base) as char]
  }

  function Number(s: string, base: nat, zero: nat): int {
    if s == "" then 0 else Number(s[..|s| - 1], base, zero) * base + (s[|s| - 1] as int - zero)
  }

  lemma {:induction false} NumberOfDigits(n: nat, base: nat, zero: nat)
    requires 2 <= base && zero + base <= 256
    ensures Number(Digits(n, base, zero), base, zero) == n
  {
    if n != 0 {
      NumberOfDigits(n / base, base, zero);
      var s := Digits(n, base, zero);
      assert s[..|s| - 1] == Digits(n / base, base, zero);
      Recompose(n, base);
    }
  }

  lemma Recompose(n: nat, base: nat)
    requires 0 < base
    ensures n / base * base + n % base == n
  {
  }

  // big.Int.Bytes and big.Int.SetBytes: the magnitude, big-endian, sign dropped.
  function Bytes(n: int): string {
    Digits(if n < 0 then -n else n, 256, 0)
  }

  function SetBytes(s: string): (n: nat) {
    NumberNonNegative(s);
    Number(s, 256, 0)
  }

  lemma {:induction false} NumberNonNegative(s: string)
    ensures 0 <= Number(s, 256, 0)
  {
    if s != "" { NumberNonNegative(s[..|s| - 1]); }
  }

  // Big-endian: the last byte is the remainder by 256, the bytes before it are those of the
  // quotient, and zero has none.
  lemma BytesBigEndian(n: nat)
    ensures n == 0 ==> Bytes(n) == ""
    ensures 0 < n ==> Bytes(n) == Bytes(n / 256) + [(n % 256) as char]
  {
  }

  // The stored bytes give back the number exactly when it was not negative.
  lemma BytesRoundTrip(n: int)
    ensures SetBytes(Bytes(n)) == n <==> 0 <= n
    ensures n < 0 ==> SetBytes(Bytes(n)) == -n
  {
    NumberOfDigits(if n < 0 then -n else n, 256, 0);
  }

  // strconv.FormatUint(n, 10) and its parser.
  function Decimal(n: nat): string {
    if n == 0 then "0" else Digits(n, 10, 48)
  }

  predicate AllDecimal(s: string) {
    forall i :: 0 <= i < |s| ==> '0' <= s[i] <= '9'
  }

  function ParseDecimal(s: string): Option<nat> {
    if s == "" || !AllDecimal(s) then None
    else NumberOfDecimals(s); Some(Number(s, 10, 48))
  }

  lemma {:induction false} NumberOfDecimals(s: string)
    requires AllDecimal(s)
    ensures 0 <= Number(s, 10, 48)
  {
    if s != "" {
      NumberOfDecimals(s[..|s| - 1]);
    }
  }

  lemma {:induction false} DigitsAreDecimals(n: nat)
    ensures AllDecimal(Digits(n, 10, 48))
    ensures 0 < n ==> Digits(n, 10, 48) != ""
  {
    if n != 0 { DigitsAreDecimals(n / 10); }
  }

  lemma DecimalRoundTrip(n: nat)
    ensures ParseDecimal(Decimal(n)) == Some(n)
  {
    if n == 0 {
      assert Number("0", 10, 48) == 0;
    } else {
      DigitsAreDecimals(n);
      NumberOfDigits(n, 10, 48);
    }
  }
}
