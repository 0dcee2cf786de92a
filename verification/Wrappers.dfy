/** Option and Result types shared by the whole project. */
module Wrappers {
  datatype Option<+T> = None | Some(value: T)

  datatype Result<+T, +E> = Ok(value: T) | Err(error: E)
}

/** Rust's integer division. */
module Division {

  /** `/` on signed integers, truncating toward zero. */
  function TruncDiv(a: int, b: int): int
    requires b > 0
  {
    if a >= 0 then a / b else -((-a) / b)
  }
}

/** Both ends of a sequence, for pages and for buffers that drop their oldest elements. */
module Ends {

  /** The first `n` elements of `s`, or all of `s` when it is shorter. */
  function First<T>(s: seq<T>, n: nat): (r: seq<T>)
    ensures |r| <= n && r <= s
  {
    if |s| <= n then s else s[..n]
  }

  /** The last `n` elements of `s`, or all of `s` when it is shorter. */
  function Last<T>(s: seq<T>, n: nat): (r: seq<T>)
    ensures |r| <= n
  {
    if |s| <= n then s else s[|s| - n..]
  }

  /** Trimming after every append is the same as trimming once at the end. */
  lemma LastAppend<T>(s: seq<T>, t: seq<T>, n: nat)
    ensures Last(Last(s, n) + t, n) == Last(s + t, n)
  {
    hide Last;
    LastIs(s, n);
    if |s| > n {
      var cut := |s| - n;
      assert s + t == s[..cut] + (s[cut..] + t);
      DropBehind(s[..cut], s[cut..] + t, n);
    }
  }

  lemma LastIs<T>(s: seq<T>, n: nat)
    ensures |s| <= n ==> Last(s, n) == s
    ensures |s| > n ==> Last(s, n) == s[|s| - n..]
  {
  }

  lemma DropBehind<T>(a: seq<T>, b: seq<T>, n: nat)
    ensures |b| >= n ==> Last(a + b, n) == Last(b, n)
  {
    if |b| >= n {
      assert (a + b)[|a| + |b| - n..] == b[|b| - n..];
    }
  }
}

/** Text helpers over Unicode scalar values, as Rust's `str` methods define them. */
module Text {

  /** Unicode White_Space, the set `char::is_whitespace` tests. */
  predicate IsWhitespace(c: char) {
    || '\U{9}' <= c <= '\U{D}'
    || c == ' '
    || c == '\U{85}'
    || c == '\U{A0}'
    || c == '\U{1680}'
    || '\U{2000}' <= c <= '\U{200A}'
    || c == '\U{2028}'
    || c == '\U{2029}'
    || c == '\U{202F}'
    || c == '\U{205F}'
    || c == '\U{3000}'
  }

  function UpperChar(c: char): char {
    if 'a' <= c <= 'z' then (c as int - 32) as char else c
  }

  function LowerChar(c: char): char {
    if 'A' <= c <= 'Z' then (c as int + 32) as char else c
  }

  /** `to_ascii_uppercase`: only ASCII letters change. */
  function Upper(s: string): (r: string)
    ensures |r| == |s|
    ensures forall i :: 0 <= i < |s| ==> r[i] == UpperChar(s[i])
  {
    seq(|s|, i requires 0 <= i < |s| => UpperChar(s[i]))
  }

  /** `to_ascii_lowercase`. */
  function Lower(s: string): (r: string)
    ensures |r| == |s|
    ensures forall i :: 0 <= i < |s| ==> r[i] == LowerChar(s[i])
  {
    seq(|s|, i requires 0 <= i < |s| => LowerChar(s[i]))
  }

  function TrimStart(s: string): string {
    if s != "" && IsWhitespace(s[0]) then TrimStart(s[1..]) else s
  }

  function TrimEnd(s: string): string {
    if s != "" && IsWhitespace(s[|s| - 1]) then TrimEnd(s[..|s| - 1]) else s
  }

  /** `str::trim`. */
  function Trim(s: string): string {
    TrimEnd(TrimStart(s))
  }

  /** No whitespace at either end. */
  predicate Trimmed(s: string) {
    s != "" ==> !IsWhitespace(s[0]) && !IsWhitespace(s[|s| - 1])
  }

  lemma {:induction false} TrimEndKeepsStart(s: string)
    ensures TrimEnd(s) <= s
    ensures TrimEnd(s) != "" ==> !IsWhitespace(TrimEnd(s)[|TrimEnd(s)| - 1])
  {
    if s != "" && IsWhitespace(s[|s| - 1]) {
      TrimEndKeepsStart(s[..|s| - 1]);
    }
  }

  lemma {:induction false} TrimStartStops(s: string)
    ensures TrimStart(s) != "" ==> !IsWhitespace(TrimStart(s)[0])
  {
    if s != "" && IsWhitespace(s[0]) {
      TrimStartStops(s[1..]);
    }
  }

  /** Trimming yields trimmed text, and leaves trimmed text alone. */
  lemma TrimTrims(s: string)
    ensures Trimmed(Trim(s))
    ensures Trimmed(s) ==> Trim(s) == s
  {
    TrimStartStops(s);
    TrimEndKeepsStart(TrimStart(s));
  }

  /** Upper-casing neither creates nor removes whitespace, and is idempotent. */
  lemma UpperKeepsTrim(s: string)
    ensures Trimmed(s) ==> Trimmed(Upper(s))
    ensures Upper(Upper(s)) == Upper(s)
  {
  }

  /** Nothing but whitespace. */
  predicate Blank(s: string) {
    forall k :: 0 <= k < |s| ==> IsWhitespace(s[k])
  }

  lemma {:induction false} TrimStartBlanks(blanks: string, s: string)
    requires Blank(blanks)
    ensures TrimStart(blanks + s) == TrimStart(s)
    decreases |blanks|
  {
    hide IsWhitespace;
    if blanks == "" {
      assert blanks + s == s;
    } else {
      assert (blanks + s)[1..] == blanks[1..] + s;
      TrimStartBlanks(blanks[1..], s);
    }
  }

  lemma {:induction false} TrimEndBlanks(s: string, blanks: string)
    requires Blank(blanks)
    ensures TrimEnd(s + blanks) == TrimEnd(s)
    decreases |blanks|
  {
    hide IsWhitespace;
    if blanks == "" {
      assert s + blanks == s;
    } else {
      assert (s + blanks)[..|s| + |blanks| - 1] == s + blanks[..|blanks| - 1];
      TrimEndBlanks(s, blanks[..|blanks| - 1]);
    }
  }

  /** Trimming takes blanks off both ends. */
  lemma TrimBlanks(front: string, s: string, back: string)
    requires Blank(front) && Blank(back) && s != "" && Trimmed(s)
    ensures Trim(front + s + back) == s
  {
    hide IsWhitespace;
    assert front + s + back == front + (s + back);
    TrimStartBlanks(front, s + back);
    assert TrimStart(s + back) == s + back;
    TrimEndBlanks(s, back);
  }
}
