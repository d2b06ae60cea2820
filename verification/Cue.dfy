/** The text known facts are ranked against: the contents of a job's episodes, joined and cut
    back to a character boundary. Text is bytes here, because the cut is by bytes. */
module Cue {

  newtype Octet = x: int | 0 <= x < 256

  const MAX_KNOWN_FACT_CUE := 8192
  const SPACE: Octet := 0x20

  // ---- UTF-8 (RFC 3629, section 4) ------------------------------------------

  predicate Tail(s: seq<Octet>, i: nat) { i < |s| && 0x80 <= s[i] <= 0xBF }

  predicate Second(s: seq<Octet>, lo: Octet, hi: Octet) { 1 < |s| && lo <= s[1] <= hi }

  /** The bytes the first character takes, or none if no character starts here. */
  function HeadLen(s: seq<Octet>): (n: nat)
    ensures n <= 4 && n <= |s|
  {
    if s == [] then 0
    else if s[0] <= 0x7F then 1
    else if 0xC2 <= s[0] <= 0xDF && Tail(s, 1) then 2
    else if s[0] == 0xE0 && Second(s, 0xA0, 0xBF) && Tail(s, 2) then 3
    else if (0xE1 <= s[0] <= 0xEC || 0xEE <= s[0] <= 0xEF) && Tail(s, 1) && Tail(s, 2) then 3
    else if s[0] == 0xED && Second(s, 0x80, 0x9F) && Tail(s, 2) then 3
    else if s[0] == 0xF0 && Second(s, 0x90, 0xBF) && Tail(s, 2) && Tail(s, 3) then 4
    else if 0xF1 <= s[0] <= 0xF3 && Tail(s, 1) && Tail(s, 2) && Tail(s, 3) then 4
    else if s[0] == 0xF4 && Second(s, 0x80, 0x8F) && Tail(s, 2) && Tail(s, 3) then 4
    else 0
  }

  predicate Utf8(s: seq<Octet>) {
    s == [] || (HeadLen(s) > 0 && Utf8(s[HeadLen(s)..]))
  }

  /** What a character may be: a code point that is no surrogate. */
  type Scalar = c: int | 0 <= c <= 0x10FFFF && !(0xD800 <= c <= 0xDFFF) witness 0

  /** Its bytes: six bits in each but the first. */
  function Encoded(c: Scalar): (s: seq<Octet>)
    ensures 1 <= |s| <= 4
  {
    var last := (0x80 + c % 64) as Octet;
    if c < 0x80 then [c as Octet]
    else if c < 0x800 then [(0xC0 + c / 64) as Octet, last]
    else if c < 0x10000 then [(0xE0 + c / 64 / 64) as Octet, (0x80 + c / 64 % 64) as Octet, last]
    else [(0xF0 + c / 64 / 64 / 64) as Octet, (0x80 + c / 64 / 64 % 64) as Octet, (0x80 + c / 64 % 64) as Octet, last]
  }

  function AllEncoded(cs: seq<Scalar>): seq<Octet> { if cs == [] then [] else Encoded(cs[0]) + AllEncoded(cs[1..]) }

  /** The bytes of a character are taken as one. */
  lemma EncodedIsHead(c: Scalar)
    ensures HeadLen(Encoded(c)) == |Encoded(c)|
  {}

  lemma Digits(hi: nat, lo: nat)
    requires lo < 64
    ensures (hi * 64 + lo) / 64 == hi && (hi * 64 + lo) % 64 == lo
  {}

  /** And what is taken as one are the bytes of a character. */
  lemma HeadIsEncoded(s: seq<Octet>) returns (c: Scalar)
    requires HeadLen(s) > 0
    ensures Encoded(c) == s[..HeadLen(s)]
  {
    var n := HeadLen(s);
    if n == 1 {
      c := s[0] as int;
    } else if n == 2 {
      c := PairIs(s[0] as int - 0xC0, s[1] as int - 0x80);
    } else if n == 3 {
      c := TripleIs(s[0] as int - 0xE0, s[1] as int - 0x80, s[2] as int - 0x80);
    } else {
      c := QuadIs(s[0] as int - 0xF0, s[1] as int - 0x80, s[2] as int - 0x80, s[3] as int - 0x80);
    }
    hide Encoded;
  }

  lemma PairIs(w: nat, x: nat) returns (c: Scalar)
    requires 2 <= w < 32 && x < 64
    ensures Encoded(c) == [(0xC0 + w) as Octet, (0x80 + x) as Octet]
  {
    c := w * 64 + x;
    Digits(w, x);
  }

  lemma TripleIs(w: nat, x: nat, y: nat) returns (c: Scalar)
    requires w < 16 && x < 64 && y < 64 && (w == 0 ==> x >= 32) && (w == 13 ==> x < 32)
    ensures Encoded(c) == [(0xE0 + w) as Octet, (0x80 + x) as Octet, (0x80 + y) as Octet]
  {
    var m := w * 64 + x;
    c := m * 64 + y;
    Digits(w, x);
    Digits(m, y);
  }

  lemma QuadIs(w: nat, x: nat, y: nat, z: nat) returns (c: Scalar)
    requires w < 5 && x < 64 && y < 64 && z < 64 && (w == 0 ==> x >= 16) && (w == 4 ==> x < 16)
    ensures Encoded(c) == [(0xF0 + w) as Octet, (0x80 + x) as Octet, (0x80 + y) as Octet, (0x80 + z) as Octet]
  {
    var m := w * 64 + x;
    var l := m * 64 + y;
    c := l * 64 + z;
    Digits(w, x);
    Digits(m, y);
    Digits(l, z);
  }

  /** Text is valid exactly when it is the bytes of some characters, one after another. */
  lemma ValidIsEncoded(s: seq<Octet>)
    ensures Utf8(s) <==> exists cs :: AllEncoded(cs) == s
  {
    if Utf8(s) { var cs := Characters(s); }
    if cs :| AllEncoded(cs) == s { EncodedIsValid(cs); }
  }

  lemma {:induction false} Characters(s: seq<Octet>) returns (cs: seq<Scalar>)
    requires Utf8(s)
    ensures AllEncoded(cs) == s
  {
    hide HeadLen, Encoded;
    cs := [];
    if s != [] {
      var n := HeadLen(s);
      var c := HeadIsEncoded(s);
      var rest := Characters(s[n..]);
      cs := [c] + rest;
      assert cs[1..] == rest && s == s[..n] + s[n..];
    }
  }

  lemma {:induction false} EncodedIsValid(cs: seq<Scalar>)
    ensures Utf8(AllEncoded(cs))
  {
    hide HeadLen, Encoded;
    if cs != [] {
      EncodedIsValid(cs[1..]);
      EncodedIsHead(cs[0]);
      HeadStands(Encoded(cs[0]), AllEncoded(cs[1..]));
      assert (Encoded(cs[0]) + AllEncoded(cs[1..]))[|Encoded(cs[0])|..] == AllEncoded(cs[1..]);
    }
  }

  /** A character is decided by its own bytes. */
  lemma HeadStands(s: seq<Octet>, t: seq<Octet>)
    requires HeadLen(s) > 0
    ensures HeadLen(s + t) == HeadLen(s) && HeadLen(s[..HeadLen(s)]) == HeadLen(s)
  {}

  /** After valid text, the whole is valid exactly when the rest is. */
  lemma {:induction false} AfterValid(s: seq<Octet>, t: seq<Octet>)
    requires Utf8(s)
    ensures Utf8(s + t) <==> Utf8(t)
  {
    if s == [] {
      assert s + t == t;
    } else {
      var n := HeadLen(s);
      HeadStands(s, t);
      assert (s + t)[n..] == s[n..] + t;
      AfterValid(s[n..], t);
    }
  }

  lemma HeadIsText(s: seq<Octet>)
    requires HeadLen(s) > 0
    ensures Utf8(s[..HeadLen(s)])
  {
    var head := s[..HeadLen(s)];
    HeadStands(s, []);
    assert HeadLen(head) == |head| && head[|head|..] == [];
  }

  /** A character boundary lies within three bytes before any place in valid text. */
  lemma {:induction false} BoundaryNear(s: seq<Octet>, n: nat) returns (k: nat)
    requires Utf8(s) && n <= |s|
    ensures k <= n <= k + 3 && Utf8(s[..k])
    decreases |s|
  {
    k := 0;
    if s != [] && HeadLen(s) <= n {
      var h := HeadLen(s);
      var k' := BoundaryNear(s[h..], n - h);
      k := h + k';
      HeadIsText(s);
      assert s[..k] == s[..h] + s[h..][..k'];
      AfterValid(s[..h], s[h..][..k']);
    }
  }

  // ---- The cue --------------------------------------------------------------

  function Joined(contents: seq<seq<Octet>>): seq<Octet> {
    if contents == [] then []
    else if |contents| == 1 then contents[0]
    else Joined(contents[..|contents| - 1]) + [SPACE] + contents[|contents| - 1]
  }

  /** Recorded contents are non-empty valid text. */
  ghost predicate Recorded(contents: seq<seq<Octet>>) {
    forall i :: 0 <= i < |contents| ==> contents[i] != [] && Utf8(contents[i])
  }

  lemma {:induction false} JoinedIsText(contents: seq<seq<Octet>>)
    requires Recorded(contents)
    ensures Utf8(Joined(contents)) && (contents != [] ==> Joined(contents) != [])
  {
    var n := |contents| - 1;
    if n > 0 {
      JoinedIsText(contents[..n]);
      assert Utf8([SPACE]) by { assert [SPACE][1..] == []; }
      AfterValid(Joined(contents[..n]), [SPACE]);
      AfterValid(Joined(contents[..n]) + [SPACE], contents[n]);
    }
  }

  lemma {:induction false} JoinedGrows(contents: seq<seq<Octet>>, i: nat)
    requires i <= |contents|
    ensures Joined(contents[..i]) <= Joined(contents)
    decreases |contents|
  {
    if i == |contents| {
      assert contents[..i] == contents;
    } else {
      var n := |contents| - 1;
      assert contents[..n][..i] == contents[..i];
      JoinedGrows(contents[..n], i);
      if n == 0 { assert contents[..0] == []; }
    }
  }

  /** The longest valid prefix within the cap. */
  ghost predicate LongestCut(text: seq<Octet>, cap: nat, cue: seq<Octet>) {
    && cue <= text && |cue| <= cap && Utf8(cue)
    && forall k :: |cue| < k <= |text| && k <= cap ==> !Utf8(text[..k])
  }

  /** Of the joined contents, the cue is the longest valid prefix within the cap, so stopping
      early loses nothing; and the cut costs at most three bytes. */
  method KnownFactCue(contents: seq<seq<Octet>>) returns (cue: seq<Octet>)
    requires Recorded(contents)
    ensures LongestCut(Joined(contents), 8192, cue)
    ensures |cue| == |Joined(contents)| || 8189 <= |cue|
  {
    hide Utf8, Joined, LongestCut;
    var b: seq<Octet> := [];
    ghost var taken := 0;
    NothingJoined();
    for i := 0 to |contents|
      invariant taken == i && b == Joined(contents[..i])
    {
      if |b| >= MAX_KNOWN_FACT_CUE { break; }
      JoinedNext(contents, i);
      if |b| > 0 {
        b := b + [SPACE];
      }
      b := b + contents[i];
      taken := i + 1;
    }
    JoinedGrows(contents, taken);
    JoinedIsText(contents[..taken]);
    assert taken == |contents| ==> contents[..taken] == contents;
    cue := Trim(b);
    CutOfPrefix(Joined(contents), b, cue);
  }

  lemma NothingJoined()
    ensures Joined([]) == []
  {}

  lemma JoinedNext(contents: seq<seq<Octet>>, i: nat)
    requires Recorded(contents) && i < |contents|
    ensures i == 0 <==> Joined(contents[..i]) == []
    ensures Joined(contents[..i + 1]) == (if i == 0 then [] else Joined(contents[..i]) + [0x20]) + contents[i]
  {
    assert contents[..i + 1][..i] == contents[..i];
    JoinedIsText(contents[..i]);
  }

  /** Cuts at the cap, then back until the text is valid again. */
  method Trim(b: seq<Octet>) returns (cue: seq<Octet>)
    requires Utf8(b)
    ensures LongestCut(b, MAX_KNOWN_FACT_CUE, cue)
    ensures |cue| == |b| || MAX_KNOWN_FACT_CUE - 3 <= |cue|
  {
    hide HeadLen;
    cue := b;
    if |cue| > MAX_KNOWN_FACT_CUE {
      cue := cue[..MAX_KNOWN_FACT_CUE];
      ghost var k := BoundaryNear(b, MAX_KNOWN_FACT_CUE);
      while |cue| > 0 && !Utf8(cue)
        invariant k <= |cue| <= MAX_KNOWN_FACT_CUE && cue == b[..|cue|]
        invariant forall j :: |cue| < j <= MAX_KNOWN_FACT_CUE ==> !Utf8(b[..j])
        decreases |cue|
      {
        cue := cue[..|cue| - 1];
      }
    }
  }

  /** What is past the cap plays no part in the cut. */
  lemma CutOfPrefix(all: seq<Octet>, b: seq<Octet>, cue: seq<Octet>)
    requires b <= all && (b == all || |b| >= MAX_KNOWN_FACT_CUE) && LongestCut(b, MAX_KNOWN_FACT_CUE, cue)
    ensures LongestCut(all, MAX_KNOWN_FACT_CUE, cue)
  {
    hide Utf8;
    forall k | |cue| < k <= |all| && k <= MAX_KNOWN_FACT_CUE ensures !Utf8(all[..k]) { assert all[..k] == b[..k]; }
  }
}
