/** The data port in passive-mode replies: EPSV (section 3 of RFC 2428) and PASV (RFC 959). */
module FtpPassive {
  import opened Prelude
  import opened Text

  // ---- EPSV ------------------------------------------------------------------------

  predicate Printable(c: char) {
    '!' <= c <= '~'
  }

  // The number of digits that `s` begins with.
  function DigitRun(s: string): (n: nat)
    ensures n <= |s| && AllDigits(s[..n]) && (n < |s| ==> !IsDigit(s[n]))
  {
    if s == [] || !IsDigit(s[0]) then 0 else 1 + DigitRun(s[1..])
  }

  // Of the first `k` characters, the longest non-empty prefix followed by `d)`.
  function Backtrack(s: string, d: char, k: nat): (r: Option<nat>)
    requires k <= |s|
    ensures r.Some? ==> 0 < r.value <= k
  {
    if k == 0 then None
    else if k + 1 < |s| && s[k] == d && s[k + 1] == ')' then Some(k)
    else Backtrack(s, d, k - 1)
  }

  // The pattern `\(([!-~])\1\1(\d+)\1\)` at the start of `s`: the digits it captures.
  function MatchHere(s: string): Option<string> {
    if |s| < 4 || s[0] != '(' || !Printable(s[1]) || s[2] != s[1] || s[3] != s[1] then None
    else
      var tail := s[4..];
      match Backtrack(tail, s[1], DigitRun(tail))
      case None => None
      case Some(k) => Some(tail[..k])
  }

  // `re.search`: the leftmost match.
  function Search(s: string): Option<string> {
    if s == [] then None
    else if MatchHere(s).Some? then MatchHere(s)
    else Search(s[1..])
  }

  function EpsvPort(text: string): Option<int> {
    match Search(text)
    case None => None
    case Some(digits) => Some(ValueOf(digits))
  }

  lemma {:induction false} DigitRunIs(digits: string, rest: string)
    requires AllDigits(digits) && (rest == [] || !IsDigit(rest[0]))
    ensures DigitRun(digits + rest) == |digits|
  {
    if digits == [] {
      assert digits + rest == rest;
    } else {
      assert (digits + rest)[1..] == digits[1..] + rest;
      DigitRunIs(digits[1..], rest);
    }
  }

  // The greedy run takes a digit delimiter with it and gives it back.
  lemma CaptureIs(digits: string, d: char, rest: string)
    requires AllDigits(digits) && digits != []
    ensures var tail := digits + [d, ')'] + rest;
            Backtrack(tail, d, DigitRun(tail)) == Some(|digits|)
  {
    var tail := digits + [d, ')'] + rest;
    if IsDigit(d) {
      assert tail == (digits + [d]) + ([')'] + rest);
      DigitRunIs(digits + [d], [')'] + rest);
      assert tail[|digits| + 1] == ')';
    } else {
      assert tail == digits + ([d, ')'] + rest);
      DigitRunIs(digits, [d, ')'] + rest);
    }
  }

  // No match starts in the first `n` characters.
  predicate NoneBefore(s: string, n: nat)
    requires n <= |s|
  {
    forall i :: 0 <= i < n ==> MatchHere(s[i..]).None?
  }

  lemma {:induction false} SearchSkips(pre: string, s: string)
    requires s != [] && MatchHere(s).Some? && NoneBefore(pre + s, |pre|)
    ensures Search(pre + s) == MatchHere(s)
  {
    if pre == [] {
      assert pre + s == s;
    } else {
      var all := pre + s;
      assert all[1..] == pre[1..] + s && all[0..] == all;
      forall i | 0 <= i < |pre| - 1 ensures MatchHere(all[1..][i..]).None? {
        assert all[1..][i..] == all[i + 1..];
      }
      SearchSkips(pre[1..], s);
    }
  }

  // A match starts with a parenthesis.
  lemma NoneWithoutParenthesis(pre: string, s: string)
    requires '(' !in pre
    ensures NoneBefore(pre + s, |pre|)
  {
    forall i | 0 <= i < |pre| ensures MatchHere((pre + s)[i..]).None? {
      assert (pre + s)[i..] != [] && (pre + s)[i..][0] == pre[i];
    }
  }

  /** Any port printed as an EPSV reply is recovered, for every delimiter the standard
      allows, digits and parentheses included, and whatever text surrounds it, as long
      as no match starts earlier. */
  lemma EpsvRecovered(pre: string, d: char, port: nat, post: string)
    requires Printable(d) && NoneBefore(pre + (['(', d, d, d] + (Digits(port) + [d, ')'] + post)), |pre|)
    ensures EpsvPort(pre + ['(', d, d, d] + Digits(port) + [d, ')'] + post) == Some(port)
  {
    var s := ['(', d, d, d] + (Digits(port) + [d, ')'] + post);
    MatchIs(Digits(port), d, post);
    SearchSkips(pre, s);
    Regroup(pre, ['(', d, d, d], Digits(port), [d, ')'], post);
    DigitsRead(port);
  }

  /** In particular after any text without an opening parenthesis. */
  lemma EpsvAfterPlainText(pre: string, d: char, port: nat, post: string)
    requires '(' !in pre && Printable(d)
    ensures EpsvPort(pre + ['(', d, d, d] + Digits(port) + [d, ')'] + post) == Some(port)
  {
    NoneWithoutParenthesis(pre, ['(', d, d, d] + (Digits(port) + [d, ')'] + post));
    EpsvRecovered(pre, d, port, post);
  }

  // The text has, after `pre`, a delimiter thrice in front of some digits and once after.
  predicate Encloses(text: string, pre: string, d: char, digits: string, post: string) {
    && Printable(d) && digits != [] && AllDigits(digits)
    && text == pre + (['(', d, d, d] + (digits + [d, ')'] + post))
  }

  lemma MatchShape(s: string) returns (d: char, digits: string, post: string)
    requires MatchHere(s).Some?
    ensures Encloses(s, [], d, digits, post)
  {
    d := s[1];
    var tail := s[4..];
    BacktrackIs(tail, d, DigitRun(tail));
    var k := Backtrack(tail, d, DigitRun(tail)).value;
    digits, post := tail[..k], tail[k + 2..];
    assert tail == digits + [d, ')'] + post;
    assert s == ['(', d, d, d] + tail;
    assert digits == tail[..DigitRun(tail)][..k];
    var all := ['(', d, d, d] + (digits + [d, ')'] + post);
    assert [] + all == all;
  }

  lemma {:induction false} BacktrackIs(s: string, d: char, k: nat)
    requires k <= |s|
    ensures var r := Backtrack(s, d, k); r.Some? ==> r.value + 1 < |s| && s[r.value] == d && s[r.value + 1] == ')'
  {
    if k > 0 && !(k + 1 < |s| && s[k] == d && s[k + 1] == ')') { BacktrackIs(s, d, k - 1); }
  }

  lemma {:induction false} SearchFinds(s: string) returns (i: nat)
    requires Search(s).Some?
    ensures i < |s| && MatchHere(s[i..]).Some?
  {
    if MatchHere(s).Some? {
      i := 0;
      assert s[0..] == s;
    } else {
      var j := SearchFinds(s[1..]);
      i := j + 1;
      assert s[i..] == s[1..][j..];
    }
  }

  lemma {:induction false} SearchHits(s: string, i: nat)
    requires i < |s| && MatchHere(s[i..]).Some?
    ensures Search(s).Some?
  {
    if i == 0 {
      assert s[0..] == s;
    } else {
      assert s[i..] == s[1..][i - 1..];
      SearchHits(s[1..], i - 1);
    }
  }

  /** A port is found exactly in the texts that have digits so enclosed somewhere. */
  lemma EpsvFoundExactly(text: string)
    ensures EpsvPort(text).Some? <==> exists pre, d, digits, post :: Encloses(text, pre, d, digits, post)
  {
    if EpsvPort(text).Some? {
      var i := SearchFinds(text);
      var d, digits, post := MatchShape(text[i..]);
      var all := ['(', d, d, d] + (digits + [d, ')'] + post);
      assert text == text[..i] + text[i..] && text[i..] == [] + all && [] + all == all;
      assert Encloses(text, text[..i], d, digits, post);
    }
    if pre, d, digits, post :| Encloses(text, pre, d, digits, post) {
      MatchIs(digits, d, post);
      assert text[|pre|..] == ['(', d, d, d] + (digits + [d, ')'] + post);
      SearchHits(text, |pre|);
    }
  }

  lemma Regroup(a: string, b: string, c: string, d: string, e: string)
    ensures a + b + c + d + e == a + (b + (c + d + e))
  {
    Assoc(a + b, c, d);
    Assoc(a + b, c + d, e);
    Assoc(a, b, c + d + e);
  }

  lemma MatchIs(digits: string, d: char, post: string)
    requires AllDigits(digits) && digits != [] && Printable(d)
    ensures MatchHere(['(', d, d, d] + (digits + [d, ')'] + post)) == Some(digits)
  {
    var tail := digits + [d, ')'] + post;
    var s := ['(', d, d, d] + tail;
    CaptureIs(digits, d, post);
    assert s[4..] == tail && tail[..|digits|] == digits;
  }

  // ---- PASV ------------------------------------------------------------------------

  // `re.findall(r"\d+", s)`.
  function Numbers(s: string): seq<string>
    decreases |s|
  {
    if s == [] then []
    else
      var n := DigitRun(s);
      if n == 0 then Numbers(s[1..]) else [s[..n]] + Numbers(s[n..])
  }

  // The advertised host, dotted, and the port: the last two numbers.
  function PasvPort(text: string): Option<(string, int)> {
    var nums := Numbers(text);
    if |nums| < 6 then None
    else Some((Join(nums[..4], "."), ValueOf(nums[|nums| - 2]) * 256 + ValueOf(nums[|nums| - 1])))
  }

  /** `findall` over the text before and after a character that is no digit. */
  lemma {:induction false} NumbersSplit(a: string, c: char, b: string)
    requires !IsDigit(c)
    ensures Numbers(a + [c] + b) == Numbers(a) + Numbers(b)
    decreases |a|
  {
    var s := a + [c] + b;
    if a == [] {
      assert s[1..] == b && !IsDigit(s[0]);
    } else {
      var n := DigitRun(a);
      var tail := a[n..];
      assert a == a[..n] + tail;
      Assoc(a[..n], tail, [c]);
      Assoc(a[..n], tail + [c], b);
      DigitRunIs(a[..n], tail + [c] + b);
      if n == 0 {
        assert s[1..] == a[1..] + [c] + b;
        NumbersSplit(a[1..], c, b);
      } else {
        assert s[..n] == a[..n] && s[n..] == tail + [c] + b;
        NumbersSplit(tail, c, b);
        Assoc([a[..n]], Numbers(tail), Numbers(b));
      }
    }
  }

  lemma {:induction false} NoNumbers(s: string)
    requires forall i :: 0 <= i < |s| ==> !IsDigit(s[i])
    ensures Numbers(s) == []
  {
    if s != [] { NoNumbers(s[1..]); }
  }

  lemma OneNumber(n: nat)
    ensures Numbers(Digits(n)) == [Digits(n)]
  {
    var s := Digits(n);
    DigitRunIs(s, []);
    assert s + [] == s && s[..|s|] == s && s[|s|..] == [];
  }

  // Numbers separated by commas.
  function Commas(ns: seq<nat>): string
    requires ns != []
  {
    if |ns| == 1 then Digits(ns[0]) else Digits(ns[0]) + [','] + Commas(ns[1..])
  }

  function AllPrinted(ns: seq<nat>): seq<string> {
    seq(|ns|, i requires 0 <= i < |ns| => Digits(ns[i]))
  }

  lemma {:induction false} CommaNumbers(ns: seq<nat>)
    requires ns != []
    ensures Numbers(Commas(ns)) == AllPrinted(ns)
    decreases |ns|
  {
    OneNumber(ns[0]);
    if |ns| > 1 {
      CommaNumbers(ns[1..]);
      NumbersSplit(Digits(ns[0]), ',', Commas(ns[1..]));
      assert AllPrinted(ns) == [Digits(ns[0])] + AllPrinted(ns[1..]);
    }
  }

  /** Any address and port printed as a PASV reply are recovered: the port after any
      text, the address when no digit comes before it. */
  lemma PasvRecovered(pre: string, host: seq<nat>, port: nat, post: string)
    requires |host| == 4
    requires forall i :: 0 <= i < |post| ==> !IsDigit(post[i])
    ensures var text := pre + ['('] + Commas(host + [port / 256, port % 256]) + [')'] + post;
            && PasvPort(text).Some? && PasvPort(text).value.1 == port
            && (Numbers(pre) == [] ==> PasvPort(text).value.0 == Join(AllPrinted(host), "."))
  {
    var ns := host + [port / 256, port % 256];
    var text := pre + ['('] + Commas(ns) + [')'] + post;
    PasvNumbers(pre, ns, post);
    var nums := Numbers(text);
    assert nums[|nums| - 2] == Digits(port / 256) && nums[|nums| - 1] == Digits(port % 256);
    DigitsRead(port / 256);
    DigitsRead(port % 256);
    if Numbers(pre) == [] {
      assert nums[..4] == AllPrinted(host);
    }
  }

  lemma PasvNumbers(pre: string, ns: seq<nat>, post: string)
    requires ns != [] && forall i :: 0 <= i < |post| ==> !IsDigit(post[i])
    ensures Numbers(pre + ['('] + Commas(ns) + [')'] + post) == Numbers(pre) + AllPrinted(ns)
  {
    var inner := Commas(ns) + [')'] + post;
    Assoc(pre + ['('], Commas(ns), [')']);
    Assoc(pre + ['('], Commas(ns) + [')'], post);
    NumbersSplit(pre, '(', inner);
    NumbersSplit(Commas(ns), ')', post);
    NoNumbers(post);
    CommaNumbers(ns);
    assert AllPrinted(ns) + [] == AllPrinted(ns);
  }
}
