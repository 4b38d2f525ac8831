/** Decimal text, as printed by `std::to_string` and stream insertion and as read
    by `std::stoi`, plus the string searches the plugins use. */
module Text {

  datatype Option<+T> = None | Some(value: T)

  predicate IsDigit(ch: char) {
    '0' <= ch <= '9'
  }

  predicate AllDigits(s: string) {
    forall i :: 0 <= i < |s| ==> IsDigit(s[i])
  }

  function Digit(d: nat): (ch: char)
    requires d < 10
  {
    '0' + d as char
  }

  function DigitValue(ch: char): (d: nat)
    requires IsDigit(ch)
    ensures d < 10 && Digit(d) == ch
  {
    (ch - '0') as nat
  }

  /** The decimal form of `n`, without leading zeros. */
  function Dec(n: nat): (s: string)
    ensures s != "" && AllDigits(s)
  {
    if n < 10 then [Digit(n)] else Dec(n / 10) + [Digit(n % 10)]
  }

  /** The number written by a digit string. */
  function Undec(s: string): nat
    requires AllDigits(s)
  {
    if s == "" then 0 else Undec(s[..|s| - 1]) * 10 + DigitValue(s[|s| - 1])
  }

  /** Digit strings that `Dec` can produce. */
  predicate CanonicalDec(s: string) {
    s != "" && AllDigits(s) && (|s| == 1 || s[0] != '0')
  }

  lemma {:induction false} UndecDec(n: nat)
    ensures Undec(Dec(n)) == n
    ensures CanonicalDec(Dec(n)) && (n > 0 ==> Dec(n)[0] != '0')
  {
    if n >= 10 {
      UndecDec(n / 10);
      assert Dec(n)[..|Dec(n)| - 1] == Dec(n / 10);
    }
  }

  lemma {:induction false} DecUndec(s: string)
    requires CanonicalDec(s)
    ensures Dec(Undec(s)) == s
    ensures s[0] != '0' ==> Undec(s) > 0
  {
    var front := s[..|s| - 1];
    if |s| == 1 {
      assert Undec(front) == 0;
    } else {
      DecUndec(front);
      assert s == front + [s[|s| - 1]];
    }
  }

  lemma {:induction false} DecInjective(m: nat, n: nat)
    requires Dec(m) == Dec(n)
    ensures m == n
  {
    UndecDec(m);
    UndecDec(n);
  }

  // ----- std::stoi

  const INT_MAX := 0x7fff_ffff

  predicate IsSpace(ch: char) {
    ch in {' ', '\t', '\n', '\r', '\U{0b}', '\U{0c}'}
  }

  function SkipSpace(s: string): string {
    if s != "" && IsSpace(s[0]) then SkipSpace(s[1..]) else s
  }

  function LeadingDigits(s: string): (r: string)
    ensures AllDigits(r)
  {
    if s != "" && IsDigit(s[0]) then [s[0]] + LeadingDigits(s[1..]) else ""
  }

  /** `std::stoi`: blanks, an optional sign, then the longest run of digits. `None`
      stands for the exceptions on a missing digit and on a value outside `int`. */
  function Stoi(s: string): (r: Option<int>)
    ensures r.Some? ==> -INT_MAX - 1 <= r.value <= INT_MAX
  {
    var t := SkipSpace(s);
    var negative := t != "" && t[0] == '-';
    var digits := LeadingDigits(if t != "" && (t[0] == '-' || t[0] == '+') then t[1..] else t);
    if digits == "" then None
    else
      var v: int := if negative then 0 - Undec(digits) else Undec(digits);
      if -INT_MAX - 1 <= v <= INT_MAX then Some(v) else None
  }

  lemma {:induction false} LeadingDigitsAll(s: string)
    requires AllDigits(s)
    ensures LeadingDigits(s) == s
  {
    if s != "" {
      LeadingDigitsAll(s[1..]);
    }
  }

  lemma {:induction false} StoiDigits(s: string)
    requires s != "" && AllDigits(s)
    ensures Stoi(s) == if Undec(s) <= INT_MAX then Some(Undec(s)) else None
  {
    assert IsDigit(s[0]);
    LeadingDigitsAll(s);
  }

  lemma {:induction false} StoiDec(n: nat)
    requires n <= INT_MAX
    ensures Stoi(Dec(n)) == Some(n)
  {
    StoiDigits(Dec(n));
    UndecDec(n);
  }

  lemma {:induction false} SkipsSpace(blanks: string, rest: string)
    requires forall ch :: ch in blanks ==> ch in [' ', '\t', '\n', '\r', '\U{0b}', '\U{0c}']
    requires rest == "" || !IsSpace(rest[0])
    ensures SkipSpace(blanks + rest) == rest
  {
    if blanks == "" {
      assert blanks + rest == rest;
    } else {
      assert blanks[0] in blanks;
      assert (blanks + rest)[1..] == blanks[1..] + rest;
      SkipsSpace(blanks[1..], rest);
    }
  }

  lemma {:induction false} LeadsDigits(digits: string, rest: string)
    requires AllDigits(digits) && (rest == "" || !IsDigit(rest[0]))
    ensures LeadingDigits(digits + rest) == digits
  {
    if digits == "" {
      assert digits + rest == rest;
    } else {
      assert (digits + rest)[1..] == digits[1..] + rest;
      LeadsDigits(digits[1..], rest);
    }
  }

  /** What is read: spaces, a sign or none, and digits up to the first character that is no
      digit; if the number fits an `int`. */
  lemma {:induction false} StoiReads(blanks: string, sign: string, digits: string, rest: string)
    requires forall ch :: ch in blanks ==> ch in [' ', '\t', '\n', '\r', '\U{0b}', '\U{0c}']
    requires sign in ["", "+", "-"]
    requires digits != "" && AllDigits(digits) && (rest == "" || !IsDigit(rest[0]))
    ensures Stoi(blanks + (sign + (digits + rest)))
      == var v: int := if sign == "-" then 0 - Undec(digits) else Undec(digits);
         if -0x8000_0000 <= v <= 0x7fff_ffff then Some(v) else None
  {
    var t := digits + rest;
    assert IsDigit(t[0]) && t[0] == digits[0];
    LeadsDigits(digits, rest);
    assert sign != "" ==> (sign + t)[0] == sign[0] && (sign + t)[1..] == t;
    assert sign == "" ==> sign + t == t;
    SkipsSpace(blanks, sign + t);
  }

  /** And nothing else is. */
  lemma {:induction false} StoiNeedsDigit(blanks: string, sign: string, rest: string)
    requires forall ch :: ch in blanks ==> ch in [' ', '\t', '\n', '\r', '\U{0b}', '\U{0c}']
    requires sign in ["", "+", "-"] && (rest == "" || !IsDigit(rest[0]))
    requires sign == "" ==> rest == "" || (!IsSpace(rest[0]) && rest[0] != '+' && rest[0] != '-')
    ensures Stoi(blanks + (sign + rest)) == None
  {
    assert sign != "" ==> (sign + rest)[0] == sign[0] && (sign + rest)[1..] == rest;
    assert sign == "" ==> sign + rest == rest;
    SkipsSpace(blanks, sign + rest);
  }

  // ----- searching

  /** `std::string::find_last_of` for one character. */
  function LastIndexOf(s: string, ch: char): (r: Option<nat>)
    ensures r.None? <==> ch !in s
    ensures r.Some? ==> r.value < |s| && s[r.value] == ch && ch !in s[r.value + 1..]
  {
    if s == "" then None
    else if s[|s| - 1] == ch then Some(|s| - 1)
    else
      var r := LastIndexOf(s[..|s| - 1], ch);
      assert s == s[..|s| - 1] + [s[|s| - 1]];
      r
  }

  lemma {:induction false} LastIndexOfJoin(left: string, ch: char, right: string)
    requires ch !in right
    ensures LastIndexOf(left + [ch] + right, ch) == Some(|left|)
  {
    var s := left + [ch] + right;
    if right != "" {
      var front := right[..|right| - 1];
      assert s[..|s| - 1] == left + [ch] + front;
      assert s[|s| - 1] == right[|right| - 1];
      LastIndexOfJoin(left, ch, front);
    }
  }

  lemma {:induction false} JoinParts(left: string, ch: char, right: string)
    ensures (left + [ch] + right)[..|left|] == left
    ensures (left + [ch] + right)[|left| + 1..] == right
  {
  }

  /** Text before and after the last `ch` determine each other's split. */
  lemma {:induction false} SplitUnique(left: string, right: string, left': string, right': string, ch: char)
    requires ch !in right && ch !in right'
    requires left + [ch] + right == left' + [ch] + right'
    ensures left == left' && right == right'
  {
    LastIndexOfJoin(left, ch, right);
    LastIndexOfJoin(left', ch, right');
    var s, s' := left + [ch] + right, left' + [ch] + right';
    assert left == s[..|left|] && left' == s'[..|left|];
    assert right == s[|left| + 1..] && right' == s'[|left| + 1..];
  }
}
