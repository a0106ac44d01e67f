/** Strict UTF-8 (RFC 3629): `bytes.decode("utf-8")` and its inverse, over Unicode scalar values. */
module Utf8 {
  import opened Common

  /** One character's bytes. */
  function CharBytes(c: char): (bs: seq<byte>)
    ensures bs != []
  {
    var n := c as int;
    if n < 0x80 then [n]
    else if n < 0x800 then [0xC0 + n / 64, 0x80 + n % 64]
    else if n < 0x1_0000 then [0xE0 + n / 64 / 64, 0x80 + n / 64 % 64, 0x80 + n % 64]
    else [0xF0 + n / 64 / 64 / 64, 0x80 + n / 64 / 64 % 64, 0x80 + n / 64 % 64, 0x80 + n % 64]
  }

  function Bytes(s: string): seq<byte> {
    if s == [] then [] else CharBytes(s[0]) + Bytes(s[1..])
  }

  predicate Continues(b: byte) {
    0x80 <= b < 0xC0
  }

  /** Neither overlong, nor a surrogate, nor past the last code point. */
  predicate Scalar(n: int, least: nat) {
    least <= n < 0x11_0000 && !(0xD800 <= n < 0xE000)
  }

  /** Six more bits, from a continuation byte. */
  function Joined(high: int, b: byte): int {
    high * 64 + (b as int - 0x80)
  }

  function Lead(b: byte, mark: int): int {
    b as int - mark
  }

  function Two(b: seq<byte>): int
    requires |b| >= 2
  {
    Joined(Lead(b[0], 0xC0), b[1])
  }

  function Three(b: seq<byte>): int
    requires |b| >= 3
  {
    Joined(Joined(Lead(b[0], 0xE0), b[1]), b[2])
  }

  function Four(b: seq<byte>): int
    requires |b| >= 4
  {
    Joined(Joined(Joined(Lead(b[0], 0xF0), b[1]), b[2]), b[3])
  }

  /** The first character, and how many bytes it takes. */
  function First(b: seq<byte>): (r: Option<(char, nat)>)
    ensures r.Some? ==> 0 < r.value.1 <= |b|
  {
    if b == [] then None
    else if b[0] < 0x80 then Some((b[0] as char, 1))
    else if |b| >= 2 && 0xC0 <= b[0] < 0xE0 && Continues(b[1]) then
      (if Scalar(Two(b), 0x80) then Some((Two(b) as char, 2)) else None)
    else if |b| >= 3 && 0xE0 <= b[0] < 0xF0 && Continues(b[1]) && Continues(b[2]) then
      (if Scalar(Three(b), 0x800) then Some((Three(b) as char, 3)) else None)
    else if |b| >= 4 && 0xF0 <= b[0] < 0xF8 && Continues(b[1]) && Continues(b[2]) && Continues(b[3]) then
      (if Scalar(Four(b), 0x1_0000) then Some((Four(b) as char, 4)) else None)
    else None
  }

  /** None: a UnicodeDecodeError. */
  function Text(b: seq<byte>): Option<string> {
    if b == [] then Some([])
    else
      var first := First(b);
      if first.None? then None
      else
        var rest := Text(b[first.value.1..]);
        if rest.None? then None else Some([first.value.0] + rest.value)
  }

  lemma JoinSplits(high: nat, b: byte)
    requires Continues(b)
    ensures Joined(high, b) / 64 == high && 0x80 + Joined(high, b) % 64 == b
  {}

  lemma SplitJoins(n: nat)
    ensures Joined(n / 64, 0x80 + n % 64) == n
  {}

  lemma {:induction false} FirstReads(c: char, b: seq<byte>, rest: seq<byte>)
    requires b == CharBytes(c) + rest
    ensures First(b) == Some((c, |CharBytes(c)|)) && b[|CharBytes(c)|..] == rest
  {
    var n := c as int;
    SplitJoins(n);
    SplitJoins(n / 64);
    SplitJoins(n / 64 / 64);
    var m := CharBytes(c);
    assert forall k :: 0 <= k < |m| ==> b[k] == m[k];
  }

  lemma {:induction false} FirstIsWritten(b: seq<byte>)
    requires First(b).Some?
    ensures b == CharBytes(First(b).value.0) + b[First(b).value.1..]
  {
    var (c, k) := First(b).value;
    assert CharBytes(c) == b[..k] by {
      if k == 2 {
        JoinSplits(b[0] - 0xC0, b[1]);
      } else if k == 3 {
        JoinSplits(b[0] - 0xE0, b[1]);
        JoinSplits(Joined(b[0] - 0xE0, b[1]), b[2]);
      } else if k == 4 {
        JoinSplits(b[0] - 0xF0, b[1]);
        JoinSplits(Joined(b[0] - 0xF0, b[1]), b[2]);
        JoinSplits(Joined(Joined(b[0] - 0xF0, b[1]), b[2]), b[3]);
      }
    }
  }

  /** Bytes read as a text exactly when they are its encoding. */
  lemma {:induction false} ReadsIff(b: seq<byte>, s: string)
    ensures Text(b) == Some(s) <==> Bytes(s) == b
    decreases |b| + |s|
  {
    if Text(b) == Some(s) && b != [] {
      var first := First(b).value;
      FirstIsWritten(b);
      ReadsIff(b[first.1..], s[1..]);
      assert s == [first.0] + s[1..];
    }
    if Bytes(s) == b && s != [] {
      FirstReads(s[0], b, Bytes(s[1..]));
      ReadsIff(Bytes(s[1..]), s[1..]);
      assert [s[0]] + s[1..] == s;
    }
  }
}
