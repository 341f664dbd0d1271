/** Well-formed UTF-8 (section 4 of RFC 3629) and the byte-level cursor walks of
    clients/editor.c:97-120, which only look at the top two bits of a byte. */
module Utf8 {
  import opened Options

  type byte = bv8
  type Text = seq<byte>

  /** (byte & 0xc0) == 0x80 */
  predicate IsContinuation(b: byte) {
    b & 0xC0 == 0x80
  }

  predicate Tail(s: Text, i: nat) {
    i < |s| && IsContinuation(s[i])
  }

  predicate InRange(s: Text, i: nat, low: byte, high: byte) {
    i < |s| && low <= s[i] <= high
  }

  /** Length of the well-formed character s starts with; 0 if there is none. */
  function CharLength(s: Text): (n: nat)
    ensures n <= |s| && n <= 4
  {
    if s == [] then 0
    else if s[0] <= 0x7F then 1
    else if 0xC2 <= s[0] <= 0xDF then (if Tail(s, 1) then 2 else 0)
    else if s[0] == 0xE0 then (if InRange(s, 1, 0xA0, 0xBF) && Tail(s, 2) then 3 else 0)
    else if s[0] == 0xED then (if InRange(s, 1, 0x80, 0x9F) && Tail(s, 2) then 3 else 0)
    else if 0xE1 <= s[0] <= 0xEF then (if Tail(s, 1) && Tail(s, 2) then 3 else 0)
    else if s[0] == 0xF0 then (if InRange(s, 1, 0x90, 0xBF) && Tail(s, 2) && Tail(s, 3) then 4 else 0)
    else if 0xF1 <= s[0] <= 0xF3 then (if Tail(s, 1) && Tail(s, 2) && Tail(s, 3) then 4 else 0)
    else if s[0] == 0xF4 then (if InRange(s, 1, 0x80, 0x8F) && Tail(s, 2) && Tail(s, 3) then 4 else 0)
    else 0
  }

  lemma CharShape(s: Text)
    ensures CharLength(s) > 0 ==> !IsContinuation(s[0])
    ensures forall i :: 1 <= i < CharLength(s) ==> IsContinuation(s[i])
  {
    if |s| > 1 {
      assert 0x80 <= s[1] <= 0xBF ==> IsContinuation(s[1]);
    }
  }

  predicate WellFormed(s: Text)
    decreases |s|
  {
    s == [] || (CharLength(s) > 0 && WellFormed(s[CharLength(s)..]))
  }

  /** Position i separates two characters of s. */
  predicate Boundary(s: Text, i: int)
    decreases |s|
  {
    i == 0 || (0 < CharLength(s) <= i && Boundary(s[CharLength(s)..], i - CharLength(s)))
  }

  /** One character, and nothing else. */
  predicate IsChar(c: Text) {
    c != [] && CharLength(c) == |c|
  }

  /** The bit test of the clients finds exactly the character boundaries. */
  lemma {:induction false} BoundaryIff(s: Text, i: nat)
    requires WellFormed(s) && i <= |s|
    ensures Boundary(s, i) <==> i == |s| || !IsContinuation(s[i])
    decreases |s|
  {
    CharShape(s);
    if s != [] && CharLength(s) <= i {
      BoundaryIff(s[CharLength(s)..], i - CharLength(s));
    }
  }

  lemma {:induction false} BoundaryInside(s: Text, i: int)
    requires Boundary(s, i)
    ensures 0 <= i <= |s|
    decreases |s|
  {
    if i != 0 { BoundaryInside(s[CharLength(s)..], i - CharLength(s)); }
  }

  lemma CharLengthOfPrefix(s: Text, i: nat)
    requires CharLength(s) <= i <= |s|
    ensures CharLength(s) > 0 ==> CharLength(s[..i]) == CharLength(s)
  {
    assert forall k :: 0 <= k < i ==> s[..i][k] == s[k];
  }

  /** Cutting at a boundary leaves two well-formed texts. */
  lemma {:induction false} SplitWellFormed(s: Text, i: nat)
    requires WellFormed(s) && Boundary(s, i)
    ensures i <= |s| && WellFormed(s[..i]) && WellFormed(s[i..])
    decreases |s|
  {
    hide CharLength;
    BoundaryInside(s, i);
    if i == 0 {
      assert s[0..] == s;
    } else {
      var n := CharLength(s);
      SplitWellFormed(s[n..], i - n);
      CharLengthOfPrefix(s, i);
      assert s[..i][n..] == s[n..][..i - n];
      assert s[i..] == s[n..][i - n..];
    }
  }

  /** Joining two well-formed texts gives one, with a boundary at the seam. */
  lemma {:induction false} JoinWellFormed(s: Text, t: Text)
    requires WellFormed(s) && WellFormed(t)
    ensures WellFormed(s + t) && Boundary(s + t, |s|)
    decreases |s|
  {
    hide CharLength;
    if s == [] {
      assert s + t == t;
    } else {
      var n := CharLength(s);
      assert (s + t)[..|s|] == s;
      CharLengthAppend(s, t);
      JoinWellFormed(s[n..], t);
      assert (s + t)[n..] == s[n..] + t;
    }
  }

  lemma CharLengthAppend(s: Text, t: Text)
    requires CharLength(s) > 0
    ensures CharLength(s + t) == CharLength(s)
  {
    assert forall k :: 0 <= k < |s| ==> (s + t)[k] == s[k];
  }

  lemma {:induction false} CharWellFormed(c: Text)
    requires IsChar(c)
    ensures WellFormed(c)
  {
    assert c[|c|..] == [];
  }

  /** Splicing a well-formed text in at a boundary. */
  lemma SpliceWellFormed(s: Text, i: nat, t: Text)
    requires WellFormed(s) && WellFormed(t) && Boundary(s, i)
    ensures i <= |s|
    ensures WellFormed(s[..i] + t + s[i..]) && Boundary(s[..i] + t + s[i..], i + |t|)
  {
    hide WellFormed, Boundary;
    SplitWellFormed(s, i);
    JoinWellFormed(s[..i], t);
    JoinWellFormed(s[..i] + t, s[i..]);
  }

  /** Removing the text between two boundaries. */
  lemma {:induction false} CutWellFormed(s: Text, i: nat, j: nat)
    requires WellFormed(s) && i <= j && Boundary(s, i) && Boundary(s, j)
    ensures j <= |s|
    ensures WellFormed(s[..i] + s[j..]) && Boundary(s[..i] + s[j..], i)
  {
    hide WellFormed, Boundary;
    SplitWellFormed(s, i);
    SplitWellFormed(s, j);
    JoinWellFormed(s[..i], s[j..]);
  }

  /** A boundary outside the removed range stays one. */
  lemma CutKeepsBoundary(s: Text, i: nat, j: nat, c: nat)
    requires WellFormed(s) && i <= j && Boundary(s, i) && Boundary(s, j) && Boundary(s, c)
    requires c <= i || j <= c
    ensures j <= |s| && c <= |s|
    ensures Boundary(s[..i] + s[j..], if c <= i then c else c - (j - i))
  {
    hide WellFormed, Boundary;
    CutWellFormed(s, i, j);
    BoundaryInside(s, c);
    BoundaryIff(s, c);
    var t := s[..i] + s[j..];
    if c < i {
      assert t[c] == s[c];
      BoundaryIff(t, c);
    } else if j <= c && i < c {
      var d := c - (j - i);
      assert c < |s| ==> t[d] == s[c];
      BoundaryIff(t, d);
    }
  }

  // ---------- The cursor walks ----------

  /** utf8_end_char: past the continuation bytes from i on. */
  function EndChar(s: Text, i: nat): (e: nat)
    requires i <= |s|
    ensures i <= e <= |s|
    ensures forall j :: i <= j < e ==> IsContinuation(s[j])
    ensures e < |s| ==> !IsContinuation(s[e])
    decreases |s| - i
  {
    if i < |s| && IsContinuation(s[i]) then EndChar(s, i + 1) else i
  }

  /** utf8_next_char: None at the terminating NUL. */
  function NextChar(s: Text, i: nat): Option<nat>
    requires i <= |s|
  {
    if i < |s| then Some(EndChar(s, i + 1)) else None
  }

  /** utf8_prev_char: None when no start of a character lies before i. */
  function PrevChar(s: Text, i: nat): (r: Option<nat>)
    requires i <= |s|
    ensures r.Some? ==> r.value < i && !IsContinuation(s[r.value])
    ensures forall j :: (if r.Some? then r.value else -1) < j < i ==> IsContinuation(s[j])
  {
    if i == 0 then None
    else if !IsContinuation(s[i - 1]) then Some(i - 1)
    else PrevChar(s, i - 1)
  }

  /** On well-formed text the walks go to the adjacent boundary, and there is
      one exactly when the cursor is not at that end of the text. */
  lemma {:induction false} NextIsNearestBoundary(s: Text, i: nat)
    requires WellFormed(s) && Boundary(s, i)
    ensures i <= |s|
    ensures NextChar(s, i).Some? <==> i < |s|
    ensures NextChar(s, i).Some? ==>
              && i < NextChar(s, i).value && Boundary(s, NextChar(s, i).value)
              && forall j :: i < j < NextChar(s, i).value ==> !Boundary(s, j)
  {
    hide WellFormed, Boundary;
    BoundaryInside(s, i);
    if i < |s| {
      var e := EndChar(s, i + 1);
      BoundaryIff(s, e);
      forall j | i < j < e
        ensures !Boundary(s, j)
      {
        BoundaryIff(s, j);
      }
    }
  }

  lemma {:induction false} PrevIsNearestBoundary(s: Text, i: nat)
    requires WellFormed(s) && Boundary(s, i)
    ensures i <= |s|
    ensures PrevChar(s, i).Some? <==> i > 0
    ensures PrevChar(s, i).Some? ==>
              && PrevChar(s, i).value < i && Boundary(s, PrevChar(s, i).value)
              && forall j :: PrevChar(s, i).value < j < i ==> !Boundary(s, j)
  {
    BoundaryInside(s, i);
    if i > 0 {
      BoundaryIff(s, 0);
      assert !IsContinuation(s[0]);
      var p := PrevChar(s, i).value;
      BoundaryIff(s, p);
      forall j | p < j < i
        ensures !Boundary(s, j)
      {
        BoundaryIff(s, j);
      }
    }
  }

  /** Next and previous character are inverse on boundaries. */
  lemma {:induction false} NextPrevInverse(s: Text, i: nat)
    requires WellFormed(s) && Boundary(s, i)
    ensures i <= |s|
    ensures i < |s| ==> PrevChar(s, NextChar(s, i).value) == Some(i)
    ensures i > 0 ==> PrevChar(s, i).Some? && NextChar(s, PrevChar(s, i).value) == Some(i)
  {
    hide WellFormed, Boundary;
    NextIsNearestBoundary(s, i);
    PrevIsNearestBoundary(s, i);
    if i < |s| {
      PrevIsNearestBoundary(s, NextChar(s, i).value);
    }
    if i > 0 {
      NextIsNearestBoundary(s, PrevChar(s, i).value);
    }
  }

  /** After splicing one character in at i, the character before its end is i. */
  lemma {:induction false} PrevOfInserted(s: Text, i: nat, c: Text)
    requires i <= |s| && IsChar(c)
    ensures PrevChar(s[..i] + c + s[i..], i + |c|) == Some(i)
  {
    CharShape(c);
    var t := s[..i] + c + s[i..];
    assert forall k :: 0 <= k < |c| ==> t[i + k] == c[k];
    var p := PrevChar(t, i + |c|);
    assert !IsContinuation(t[i + 0]);
  }

  // ---------- The loops ----------

  /** The byte at s + i, reading the terminating NUL past the last one. */
  function ByteAt(s: Text, i: nat): byte
    requires i <= |s|
  {
    if i < |s| then s[i] else 0
  }

  method ScanEndChar(s: Text, i: nat) returns (p: nat)
    requires i <= |s|
    ensures p == EndChar(s, i)
  {
    p := i;
    while IsContinuation(ByteAt(s, p))
      invariant i <= p <= |s| && EndChar(s, p) == EndChar(s, i)
      decreases |s| - p
    {
      p := p + 1;
    }
  }

  method ScanPrevChar(s: Text, i: nat) returns (r: Option<nat>)
    requires i <= |s|
    ensures r == PrevChar(s, i)
  {
    var p := i - 1;
    while p >= 0
      invariant -1 <= p < i && PrevChar(s, p + 1) == PrevChar(s, i)
    {
      if !IsContinuation(s[p]) {
        return Some(p);
      }
      p := p - 1;
    }
    r := None;
  }

  method ScanNextChar(s: Text, i: nat) returns (r: Option<nat>)
    requires i <= |s| && 0 !in s
    ensures r == NextChar(s, i)
  {
    if ByteAt(s, i) != 0 {
      var e := ScanEndChar(s, i + 1);
      return Some(e);
    }
    r := None;
  }
}
