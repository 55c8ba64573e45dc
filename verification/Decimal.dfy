/** Printing and parsing the `rapid_sync_state` file. */
module Decimal {
  import opened Words
  import opened Wrappers

  predicate IsDigit(c: char) {
    '0' <= c <= '9'
  }

  function DigitOf(d: nat): (c: char)
    requires d < 10
    ensures IsDigit(c) && ValueOf(c) == d
  {
    ['0', '1', '2', '3', '4', '5', '6', '7', '8', '9'][d]
  }

  function ValueOf(c: char): (d: nat)
    requires IsDigit(c)
    ensures d < 10
  {
    (c as int) - ('0' as int)
  }

  /** `to_string` of an unsigned number. */
  function Print(n: nat): (s: string)
    ensures s != []
  {
    if n < 10 then [DigitOf(n)] else Print(n / 10) + [DigitOf(n % 10)]
  }

  ghost predicate AllDigits(s: string) {
    forall i | 0 <= i < |s| :: IsDigit(s[i])
  }

  function Value(s: string): (v: nat)
    requires forall i | 0 <= i < |s| :: IsDigit(s[i])
  {
    if s == [] then 0 else 10 * Value(s[..|s| - 1]) + ValueOf(s[|s| - 1])
  }

  /** Unicode white space. */
  predicate IsWhitespace(c: char) {
    || '\U{0009}' <= c <= '\U{000D}' || c == ' ' || c == '\U{0085}' || c == '\U{00A0}' || c == '\U{1680}'
    || '\U{2000}' <= c <= '\U{200A}' || c == '\U{2028}' || c == '\U{2029}' || c == '\U{202F}'
    || c == '\U{205F}' || c == '\U{3000}'
  }

  function TrimStart(s: string): (r: string) {
    if s != [] && IsWhitespace(s[0]) then TrimStart(s[1..]) else s
  }

  function TrimEnd(s: string): (r: string) {
    if s != [] && IsWhitespace(s[|s| - 1]) then TrimEnd(s[..|s| - 1]) else s
  }

  function Trim(s: string): (r: string) {
    TrimEnd(TrimStart(s))
  }

  /** One leading plus sign is accepted when something follows it. */
  function Unsigned(s: string): (r: string) {
    if |s| > 1 && s[0] == '+' then s[1..] else s
  }

  /** What `parse::<u32>` accepts, and as what. */
  ghost function Parse(s: string): (r: Option<u32>) {
    var digits := Unsigned(s);
    if digits != [] && AllDigits(digits) && Value(digits) < U32_LIMIT then Some(Value(digits)) else None
  }

  lemma {:induction false} ValuePrefix(s: string, k: nat)
    requires AllDigits(s) && k <= |s|
    ensures Value(s[..k]) <= Value(s)
  {
    if k < |s| {
      assert s[..|s| - 1][..k] == s[..k];
      ValuePrefix(s[..|s| - 1], k);
    } else {
      assert s[..k] == s;
    }
  }

  /** Digit by digit with overflow checks. */
  method ParseU32(s: string) returns (r: Option<u32>)
    ensures r == Parse(s)
    ensures r.Some? <==>
            var digits := if |s| > 1 && s[0] == '+' then s[1..] else s;
            digits != [] && AllDigits(digits) && Value(digits) < 4294967296
  {
    var digits := Unsigned(s);
    if digits == [] {
      return None;
    }
    var result := 0;
    for i := 0 to |digits|
      invariant AllDigits(digits[..i]) && result == Value(digits[..i]) < U32_LIMIT
    {
      if !IsDigit(digits[i]) {
        return None;
      }
      result := 10 * result + ValueOf(digits[i]);
      assert digits[..i + 1][..i] == digits[..i];
      if result >= U32_LIMIT {
        if AllDigits(digits) {
          ValuePrefix(digits, i + 1);
        }
        return None;
      }
    }
    assert digits[..|digits|] == digits;
    return Some(result);
  }

  lemma {:induction false} PrintDigits(n: nat)
    ensures AllDigits(Print(n)) && Value(Print(n)) == n
    decreases n
  {
    if n >= 10 {
      PrintDigits(n / 10);
      var s := Print(n);
      assert s[..|s| - 1] == Print(n / 10);
    } else {
      assert Print(n)[..0] == [];
    }
  }

  /** What a sync starts from: the timestamp in the file, or 0 if there is no file or it does not parse. */
  ghost function StartingPoint(file: Option<string>): (t: u32) {
    match file
    case None => 0
    case Some(text) =>
      match Parse(Trim(text))
      case None => 0
      case Some(t) => t
  }

  lemma {:induction false} DigitsUntrimmed(s: string)
    requires AllDigits(s)
    ensures Trim(s) == s && Unsigned(s) == s
  {
    assert s != [] ==> IsDigit(s[0]) && IsDigit(s[|s| - 1]);
  }

  /** The text of a number is its decimal digits, the last one last. */
  lemma {:induction false} PrintText(n: nat, d: nat)
    requires d < 10
    ensures Print(d) == ["0123456789"[d]]
    ensures n > 0 ==> Print(10 * n + d) == Print(n) + ["0123456789"[d]]
  {
    assert (10 * n + d) / 10 == n && (10 * n + d) % 10 == d;
  }

  /** A blank or line end. */
  predicate IsBlank(c: char) {
    c in " \t\r\n"
  }

  lemma {:induction false} BlanksTrimmed(pre: string, s: string, post: string)
    requires forall c | c in pre + post :: IsBlank(c)
    requires s != [] && !IsWhitespace(s[0]) && !IsWhitespace(s[|s| - 1])
    ensures Trim(pre + s + post) == s
    decreases |pre| + |post|
  {
    if pre != [] {
      var text := pre + s + post;
      assert pre[0] in pre + post;
      assert text[0] == pre[0] && text[1..] == pre[1..] + s + post;
      BlanksTrimmed(pre[1..], s, post);
    } else {
      assert pre + s + post == s + post;
      EndTrimmed(s, post);
    }
  }

  lemma {:induction false} EndTrimmed(s: string, post: string)
    requires forall c | c in post :: IsBlank(c)
    requires s != [] && !IsWhitespace(s[|s| - 1])
    ensures TrimEnd(s + post) == s
  {
    if post == [] {
      assert s + post == s;
    } else {
      var text := s + post;
      assert post[|post| - 1] in post;
      assert text[|text| - 1] == post[|post| - 1] && text[..|text| - 1] == s + post[..|post| - 1];
      EndTrimmed(s, post[..|post| - 1]);
    }
  }

  /** Any number below 2^32 is read back, also with blanks or line ends around it or a plus sign before it; a larger
      one counts as unreadable. */
  lemma {:induction false} NumberRead(n: nat, pre: string, sign: string, post: string)
    requires forall c | c in pre + post :: IsBlank(c)
    requires sign == "" || sign == "+"
    ensures StartingPoint(Some(pre + (sign + Print(n)) + post)) == if n < 4294967296 then n else 0
  {
    var (digits, s) := (Print(n), sign + Print(n));
    PrintDigits(n);
    DigitsUntrimmed(digits);
    assert s[0] == '+' || IsDigit(s[0]);
    assert s[|s| - 1] == digits[|digits| - 1];
    BlanksTrimmed(pre, s, post);
    assert Unsigned(s) == digits by {
      assert sign == "+" ==> s[1..] == digits;
      assert sign == "" ==> s == digits;
    }
  }

  /** A text with any other visible character counts as unreadable. */
  lemma {:induction false} GarbageUnread(text: string, i: nat)
    requires i < |text| && '!' <= text[i] <= '~' && text[i] != '+' && !('0' <= text[i] <= '9')
    ensures StartingPoint(Some(text)) == 0
  {
    var j := TrimKeeps(text, i);
    var (s, digits) := (Trim(text), Unsigned(Trim(text)));
    if digits != s {
      assert digits[j - 1] == text[i];
    }
  }

  lemma {:induction false} TrimKeeps(text: string, i: nat) returns (j: nat)
    requires i < |text| && !IsWhitespace(text[i])
    ensures j < |Trim(text)| && Trim(text)[j] == text[i]
  {
    var k := StartKeeps(text, i);
    j := EndKeeps(TrimStart(text), k);
  }

  lemma {:induction false} StartKeeps(text: string, i: nat) returns (j: nat)
    requires i < |text| && !IsWhitespace(text[i])
    ensures j < |TrimStart(text)| && TrimStart(text)[j] == text[i]
  {
    j := i;
    if IsWhitespace(text[0]) {
      j := StartKeeps(text[1..], i - 1);
    }
  }

  lemma {:induction false} EndKeeps(text: string, i: nat) returns (j: nat)
    requires i < |text| && !IsWhitespace(text[i])
    ensures j < |TrimEnd(text)| && TrimEnd(text)[j] == text[i]
  {
    j := i;
    if IsWhitespace(text[|text| - 1]) {
      j := EndKeeps(text[..|text| - 1], i);
    }
  }

  /** `n` with its last `j` decimal digits cut off. */
  ghost function Cut(n: nat, j: nat): (r: nat)
    ensures r <= n
  {
    if j == 0 then n else Cut(n, j - 1) / 10
  }

  lemma {:induction false} PrefixIsCut(s: string, k: nat)
    requires AllDigits(s) && k <= |s|
    ensures Value(s[..k]) == Cut(Value(s), |s| - k)
    decreases |s| - k
  {
    if k == |s| {
      assert s[..k] == s;
    } else {
      PrefixIsCut(s, k + 1);
      assert s[..k + 1][..k] == s[..k];
    }
  }

  /** Reading back the whole text gives the timestamp. If a crash left only the first `k` characters, the next
      sync starts from the timestamp with its last digits cut off, and from 0 if nothing was written: never
      from a later time. */
  lemma {:induction false} TornSave(n: u32, k: nat)
    requires k <= |Print(n)|
    ensures StartingPoint(Some(Print(n)[..k])) == if k == 0 then 0 else Cut(n, |Print(n)| - k)
    ensures StartingPoint(Some(Print(n)[..k])) <= n
    ensures k == |Print(n)| ==> StartingPoint(Some(Print(n)[..k])) == n
  {
    var s := Print(n);
    PrintDigits(n);
    DigitsUntrimmed(s[..k]);
    PrefixIsCut(s, k);
    assert k == |s| ==> s[..k] == s;
  }
}
