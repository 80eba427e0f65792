/**
The client_order_id text `<strategy>.<run uuid>.<suffix>`: its printer, the listing prefix that crash
recovery relies on, and the parser on the order-update stream.
 */
module ClientOrderId {
  import opened Prelude

  type Byte = b: int | 0 <= b < 256

  type UUID = u: seq<Byte> | |u| == 16 witness seq(16, _ => 0)

  const HEX_DIGITS := "0123456789abcdef"

  function HexDigit(n: int): char
    requires 0 <= n < 16
  {
    HEX_DIGITS[n]
  }

  /** The value of a hexadecimal digit; both letter cases are accepted. */
  function HexValue(c: char): Option<int>
  {
    if '0' <= c <= '9' then Some(c as int - '0' as int)
    else if 'a' <= c <= 'f' then Some(c as int - 'a' as int + 10)
    else if 'A' <= c <= 'F' then Some(c as int - 'A' as int + 10)
    else None
  }

  function Hex(bytes: seq<Byte>): (s: string)
    ensures |s| == 2 * |bytes|
  {
    if bytes == [] then "" else [HexDigit(bytes[0] / 16), HexDigit(bytes[0] % 16)] + Hex(bytes[1..])
  }

  function Unhex(s: string): (r: Option<seq<Byte>>)
    ensures r.Some? ==> 2 * |r.value| == |s|
  {
    if s == "" then Some([])
    else if |s| == 1 then None
    else
      match (HexValue(s[0]), HexValue(s[1]), Unhex(s[2..]))
      case (Some(hi), Some(lo), Some(rest)) => Some([16 * hi + lo] + rest)
      case _ => None
  }

  /** The canonical text form (RFC 9562, section 4): lower-case, dashes after bytes 4, 6, 8 and 10. */
  function Text(u: UUID): (s: string)
    ensures |s| == 36
  {
    Hex(u[..4]) + "-" + Hex(u[4..6]) + "-" + Hex(u[6..8]) + "-" + Hex(u[8..10]) + "-" + Hex(u[10..])
  }

  /** Reads the 36-character form; hexadecimal letters may be in either case. */
  function ParseText(s: string): Option<UUID>
  {
    if |s| == 36 && s[8] == '-' && s[13] == '-' && s[18] == '-' && s[23] == '-' then
      match (Unhex(s[..8]), Unhex(s[9..13]), Unhex(s[14..18]), Unhex(s[19..23]), Unhex(s[24..]))
      case (Some(a), Some(b), Some(c), Some(d), Some(e)) => Some(a + b + c + d + e)
      case _ => None
    else None
  }

  predicate DotFree(s: string)
  {
    '.' !in s
  }

  function BuildPrefix(name: string, run: UUID): string
  {
    name + "." + Text(run) + "."
  }

  function Build(name: string, run: UUID, suffix: string): string
  {
    BuildPrefix(name, run) + suffix
  }

  function FirstDot(s: string): (i: nat)
    requires !DotFree(s)
    ensures i < |s| && s[i] == '.' && DotFree(s[..i])
    ensures forall k :: 0 <= k < i ==> s[k] != '.'
  {
    if s[0] == '.' then 0
    else
      assert s == [s[0]] + s[1..];
      var i := 1 + FirstDot(s[1..]);
      assert s[..i] == [s[0]] + s[1..][..i - 1];
      i
  }

  /** `strings.SplitN(s, ".", n)`: at most n parts, the last one unsplit. */
  function SplitN(s: string, n: nat): (parts: seq<string>)
    requires 1 <= n
    ensures 1 <= |parts| <= n
  {
    if n == 1 || DotFree(s) then [s]
    else
      var i := FirstDot(s);
      [s[..i]] + SplitN(s[i + 1..], n - 1)
  }

  datatype Run = Run(doraUser: string, status: string)

  datatype OrderEvent = OrderEvent(userID: string, runID: UUID)

  /** The order-update filter; `raw` is None when the field is missing or not a string. */
  function Translate(known: set<string>, lookup: UUID -> Option<Run>, raw: Option<string>, user: string)
    : Option<OrderEvent>
  {
    if raw == None || raw.value == "" then None
    else
      var parts := SplitN(raw.value, 3);
      if |parts| != 3 || parts[0] !in known then None
      else
        match ParseText(parts[1])
        case None => None
        case Some(run) =>
          match lookup(run)
          case None => None
          case Some(r) =>
            if r.doraUser == user && (r.status == "running" || r.status == "paused")
            then Some(OrderEvent(user, run)) else None
  }

  // ---- The UUID text form -------------------------------------------------------------------

  lemma HexDigitValue(n: int)
    requires 0 <= n < 16
    ensures HexValue(HexDigit(n)) == Some(n)
    ensures HexDigit(n) != '.' && HexDigit(n) != '-'
  {
  }

  lemma UnhexPair(high: char, low: char, hi: int, lo: int, rest: string)
    requires HexValue(high) == Some(hi) && HexValue(low) == Some(lo)
    ensures Unhex([high, low] + rest) == if Unhex(rest) == None then None else Some([16 * hi + lo] + Unhex(rest).value)
  {
    hide HexValue;
    assert ([high, low] + rest)[2..] == rest;
  }

  lemma UnhexByte(x: Byte, rest: string)
    requires Unhex(rest).Some?
    ensures Unhex([HexDigit(x / 16), HexDigit(x % 16)] + rest) == Some([x] + Unhex(rest).value)
  {
    hide HexValue, HexDigit, Unhex;
    var hi, lo := x / 16, x % 16;
    assert 16 * hi + lo == x && 0 <= hi < 16 && 0 <= lo < 16;
    HexDigitValue(hi);
    HexDigitValue(lo);
    UnhexPair(HexDigit(hi), HexDigit(lo), hi, lo, rest);
  }

  lemma DotFreePair(x: Byte, rest: string)
    requires DotFree(rest)
    ensures DotFree([HexDigit(x / 16), HexDigit(x % 16)] + rest)
  {
    HexDigitValue(x / 16);
    HexDigitValue(x % 16);
  }

  lemma {:induction false} UnhexHex(bytes: seq<Byte>)
    ensures Unhex(Hex(bytes)) == Some(bytes)
    ensures DotFree(Hex(bytes))
  {
    if bytes != [] {
      UnhexHex(bytes[1..]);
      UnhexByte(bytes[0], Hex(bytes[1..]));
      DotFreePair(bytes[0], Hex(bytes[1..]));
      assert bytes == [bytes[0]] + bytes[1..];
    }
  }

  lemma DashedFields(a: string, b: string, c: string, d: string, e: string)
    requires |a| == 8 && |b| == 4 && |c| == 4 && |d| == 4 && |e| == 12
    ensures var s := a + "-" + b + "-" + c + "-" + d + "-" + e;
            && |s| == 36 && s[8] == '-' && s[13] == '-' && s[18] == '-' && s[23] == '-'
            && s[..8] == a && s[9..13] == b && s[14..18] == c && s[19..23] == d && s[24..] == e
    ensures DotFree(a) && DotFree(b) && DotFree(c) && DotFree(d) && DotFree(e) ==>
              DotFree(a + "-" + b + "-" + c + "-" + d + "-" + e)
  {
  }

  /** Printing then parsing a run id gives the run id back, and its text holds no dot. */
  lemma TextRoundTrip(u: UUID)
    ensures ParseText(Text(u)) == Some(u)
    ensures DotFree(Text(u))
  {
    hide Hex, Unhex;
    UnhexHex(u[..4]);
    UnhexHex(u[4..6]);
    UnhexHex(u[6..8]);
    UnhexHex(u[8..10]);
    UnhexHex(u[10..]);
    DashedFields(Hex(u[..4]), Hex(u[4..6]), Hex(u[6..8]), Hex(u[8..10]), Hex(u[10..]));
    assert u == u[..4] + u[4..6] + u[6..8] + u[8..10] + u[10..];
  }

  lemma TextInjective(u: UUID, v: UUID)
    ensures Text(u) == Text(v) ==> u == v
  {
    TextRoundTrip(u);
    TextRoundTrip(v);
  }

  /** Where byte i of an id is in its text: two characters a byte, and a dash after bytes 4, 6, 8 and 10. */
  function At(i: nat): nat
  {
    2 * i + (if i < 4 then 0 else if i < 6 then 1 else if i < 8 then 2 else if i < 10 then 3 else 4)
  }

  /** The character is the hexadecimal digit n, in either case. */
  predicate IsDigit(c: char, n: int)
  {
    0 <= n < 16 && (c == "0123456789abcdef"[n] || c == "0123456789ABCDEF"[n])
  }

  lemma {:induction false} HexAt(bytes: seq<Byte>, k: nat)
    requires k < |bytes|
    ensures Hex(bytes)[2 * k] == "0123456789abcdef"[bytes[k] / 16] && Hex(bytes)[2 * k + 1] == "0123456789abcdef"[bytes[k] % 16]
  {
    if k > 0 { HexAt(bytes[1..], k - 1); }
  }

  lemma FieldAt(s: string, lo: nat, hi: nat, bytes: seq<Byte>, k: nat)
    requires lo <= hi <= |s| && s[lo..hi] == Hex(bytes) && k < |bytes|
    ensures lo + 2 * k + 1 < hi
    ensures s[lo + 2 * k] == "0123456789abcdef"[bytes[k] / 16] && s[lo + 2 * k + 1] == "0123456789abcdef"[bytes[k] % 16]
  {
    HexAt(bytes, k);
    var t := Hex(bytes);
    hide Hex;
    assert |t| == hi - lo && t[2 * k] == s[lo + 2 * k] && t[2 * k + 1] == s[lo + 2 * k + 1];
  }

  /** The text: 36 characters, dashes at 8, 13, 18 and 23, and each byte's two digits in lower case, the high one first. */
  lemma TextForm(u: UUID, i: nat)
    requires i < 16
    ensures var s := Text(u);
            && |s| == 36 && s[8] == s[13] == s[18] == s[23] == '-'
            && s[At(i)] == "0123456789abcdef"[u[i] / 16] && s[At(i) + 1] == "0123456789abcdef"[u[i] % 16]
  {
    hide Hex;
    DashedFields(Hex(u[..4]), Hex(u[4..6]), Hex(u[6..8]), Hex(u[8..10]), Hex(u[10..]));
    var s := Text(u);
    hide Text;
    if i < 4 { FieldAt(s, 0, 8, u[..4], i); }
    else if i < 6 { FieldAt(s, 9, 13, u[4..6], i - 4); }
    else if i < 8 { FieldAt(s, 14, 18, u[6..8], i - 6); }
    else if i < 10 { FieldAt(s, 19, 23, u[8..10], i - 8); }
    else { FieldAt(s, 24, 36, u[10..], i - 10); }
  }

  lemma HexValueIff(c: char, n: int)
    ensures HexValue(c) == Some(n) <==> IsDigit(c, n)
  {
  }

  lemma HexValueRange(c: char)
    ensures HexValue(c).Some? ==> 0 <= HexValue(c).value < 16
  {
  }

  /** Every pair of characters spells its byte. */
  ghost predicate Spells(s: string, bytes: seq<Byte>)
  {
    |s| == 2 * |bytes| && forall k :: 0 <= k < |bytes| ==> SpellsByte(s[2 * k], s[2 * k + 1], bytes[k])
  }

  predicate SpellsByte(high: char, low: char, b: Byte)
  {
    IsDigit(high, b / 16) && IsDigit(low, b % 16)
  }

  lemma PairIff(high: char, low: char, b: Byte)
    ensures SpellsByte(high, low, b) <==>
            HexValue(high).Some? && HexValue(low).Some? && 16 * HexValue(high).value + HexValue(low).value == b
  {
    HexValueIff(high, b / 16);
    HexValueIff(low, b % 16);
    HexValueRange(high);
    HexValueRange(low);
    hide HexValue, IsDigit;
  }

  lemma {:induction false} UnhexIff(s: string, bytes: seq<Byte>)
    ensures Unhex(s) == Some(bytes) <==> Spells(s, bytes)
    decreases |bytes|
  {
    if bytes != [] && |s| == 2 * |bytes| {
      var rest, more := s[2..], bytes[1..];
      UnhexIff(rest, more);
      PairIff(s[0], s[1], bytes[0]);
      hide HexValue, SpellsByte;
      assert bytes == [bytes[0]] + more;
      assert s == [s[0], s[1]] + rest;
      SpellsCons(s[0], s[1], rest, bytes[0], more);
      UnhexCons(s, bytes);
    }
  }

  lemma UnhexCons(s: string, bytes: seq<Byte>)
    requires |s| == 2 * |bytes| && bytes != []
    ensures Unhex(s) == Some(bytes) <==>
            && HexValue(s[0]).Some? && HexValue(s[1]).Some? && 16 * HexValue(s[0]).value + HexValue(s[1]).value == bytes[0]
            && Unhex(s[2..]) == Some(bytes[1..])
  {
    hide HexValue;
    assert bytes == [bytes[0]] + bytes[1..];
  }

  lemma SpellsCons(high: char, low: char, s: string, b: Byte, bytes: seq<Byte>)
    ensures Spells([high, low] + s, [b] + bytes) <==> SpellsByte(high, low, b) && Spells(s, bytes)
  {
    hide SpellsByte;
    var t, all := [high, low] + s, [b] + bytes;
    if Spells(t, all) {
      assert SpellsByte(t[2 * 0], t[2 * 0 + 1], all[0]);
      forall k | 0 <= k < |bytes| ensures SpellsByte(s[2 * k], s[2 * k + 1], bytes[k]) {
        assert SpellsByte(t[2 * (k + 1)], t[2 * (k + 1) + 1], all[k + 1]);
      }
    }
    if SpellsByte(high, low, b) && Spells(s, bytes) {
      forall k | 0 <= k < |all| ensures SpellsByte(t[2 * k], t[2 * k + 1], all[k]) {
        if k > 0 { assert SpellsByte(s[2 * (k - 1)], s[2 * (k - 1) + 1], bytes[k - 1]); }
      }
    }
  }

  /** What parses, and as what: 36 characters, the four dashes, and digits of either case that spell the id's bytes in order. */
  lemma ParsesExactly(s: string, u: UUID)
    ensures ParseText(s) == Some(u) <==>
            && |s| == 36 && s[8] == s[13] == s[18] == s[23] == '-'
            && Spells(s[..8], u[..4]) && Spells(s[9..13], u[4..6]) && Spells(s[14..18], u[6..8])
            && Spells(s[19..23], u[8..10]) && Spells(s[24..], u[10..])
  {
    hide Unhex, Spells;
    if |s| == 36 {
      UnhexIff(s[..8], u[..4]);
      UnhexIff(s[9..13], u[4..6]);
      UnhexIff(s[14..18], u[6..8]);
      UnhexIff(s[19..23], u[8..10]);
      UnhexIff(s[24..], u[10..]);
      if s[8] == s[13] == s[18] == s[23] == '-' {
        FieldsIff(Unhex(s[..8]), Unhex(s[9..13]), Unhex(s[14..18]), Unhex(s[19..23]), Unhex(s[24..]), u);
      }
    }
  }

  /** Five fields of the right lengths make up an id exactly when each is its part of it. */
  lemma FieldsIff(a: Option<seq<Byte>>, b: Option<seq<Byte>>, c: Option<seq<Byte>>, d: Option<seq<Byte>>, e: Option<seq<Byte>>,
                  u: UUID)
    requires (a.Some? ==> |a.value| == 4) && (b.Some? ==> |b.value| == 2) && (c.Some? ==> |c.value| == 2)
    requires (d.Some? ==> |d.value| == 2) && (e.Some? ==> |e.value| == 6)
    ensures a.Some? && b.Some? && c.Some? && d.Some? && e.Some? && a.value + b.value + c.value + d.value + e.value == u <==>
            a == Some(u[..4]) && b == Some(u[4..6]) && c == Some(u[6..8]) && d == Some(u[8..10]) && e == Some(u[10..])
  {
    if a.Some? && b.Some? && c.Some? && d.Some? && e.Some? {
      var all := a.value + b.value + c.value + d.value + e.value;
      assert all[..4] == a.value && all[4..6] == b.value && all[6..8] == c.value && all[8..10] == d.value && all[10..] == e.value;
      assert u == u[..4] + u[4..6] + u[6..8] + u[8..10] + u[10..];
    }
  }

  // ---- Splitting and prefixes ---------------------------------------------------------------

  lemma FirstDotAt(s: string, i: nat)
    requires i < |s| && s[i] == '.' && DotFree(s[..i])
    ensures !DotFree(s) && FirstDot(s) == i
  {
    assert s[i] in s;
    assert forall k :: 0 <= k < i ==> s[..i][k] == s[k];
    assert FirstDot(s) >= i;
  }

  /** A dot-free head is the first part of the split; the rest is split on. */
  lemma SplitHead(head: string, tail: string, n: nat)
    requires 2 <= n && DotFree(head)
    ensures SplitN(head + "." + tail, n) == [head] + SplitN(tail, n - 1)
  {
    var s := head + "." + tail;
    assert s[..|head|] == head;
    FirstDotAt(s, |head|);
    assert s[|head| + 1..] == tail;
  }

  lemma HeadIsDotFree(s: string, n: nat)
    requires 2 <= n && |SplitN(s, n)| >= 2
    ensures DotFree(SplitN(s, n)[0])
    ensures |SplitN(s, n)[0]| < |s| && s == SplitN(s, n)[0] + "." + s[|SplitN(s, n)[0]| + 1..]
    ensures SplitN(s, n)[1..] == SplitN(s[|SplitN(s, n)[0]| + 1..], n - 1)
  {
  }

  lemma SplitThree(a: string, b: string, c: string)
    requires DotFree(b)
    ensures SplitN(a + "." + b + "." + c, 3) == [a, b, c] <==> DotFree(a)
  {
    var raw := a + "." + b + "." + c;
    if DotFree(a) {
      assert raw == a + "." + (b + "." + c);
      SplitHead(a, b + "." + c, 3);
      SplitHead(b, c, 2);
    } else if SplitN(raw, 3) == [a, b, c] {
      HeadIsDotFree(raw, 3);
    }
  }

  /** Splitting undoes printing exactly for dot-free strategy names. */
  lemma SplitBuild(name: string, run: UUID, suffix: string)
    ensures SplitN(Build(name, run, suffix), 3) == [name, Text(run), suffix] <==> DotFree(name)
  {
    TextRoundTrip(run);
    SplitThree(name, Text(run), suffix);
  }

  lemma PrefixGivesHeads(a: string, b: string, raw: string)
    requires DotFree(a) && DotFree(b) && a + "." + b + "." <= raw
    ensures var p := SplitN(raw, 3); |p| == 3 && p[0] == a && p[1] == b
  {
    var prefix := a + "." + b + ".";
    assert raw == prefix + raw[|prefix|..];
    SplitThree(a, b, raw[|prefix|..]);
  }

  lemma Concatenated(a: string, b: string, raw: string, rest: string, tail: string)
    requires raw == a + "." + rest && rest == b + "." + tail
    ensures a + "." + b + "." <= raw
  {
    assert raw == a + "." + b + "." + tail;
  }

  lemma HeadsGivePrefix(raw: string)
    requires |SplitN(raw, 3)| == 3
    ensures SplitN(raw, 3)[0] + "." + SplitN(raw, 3)[1] + "." <= raw
  {
    HeadIsDotFree(raw, 3);
    var rest := raw[|SplitN(raw, 3)[0]| + 1..];
    HeadIsDotFree(rest, 2);
    Concatenated(SplitN(raw, 3)[0], SplitN(rest, 2)[0], raw, rest, rest[|SplitN(rest, 2)[0]| + 1..]);
  }

  lemma PrefixIffHeads(a: string, b: string, raw: string)
    requires DotFree(a) && DotFree(b)
    ensures a + "." + b + "." <= raw <==> var p := SplitN(raw, 3); |p| == 3 && p[0] == a && p[1] == b
  {
    if a + "." + b + "." <= raw { PrefixGivesHeads(a, b, raw); }
    if |SplitN(raw, 3)| == 3 && SplitN(raw, 3)[0] == a && SplitN(raw, 3)[1] == b { HeadsGivePrefix(raw); }
  }

  /** Which raw ids start with a listing prefix: exactly those that split into that name and run. */
  lemma PrefixIffSplit(name: string, run: UUID, raw: string)
    requires DotFree(name)
    ensures BuildPrefix(name, run) <= raw <==>
            var p := SplitN(raw, 3); |p| == 3 && p[0] == name && p[1] == Text(run)
  {
    TextRoundTrip(run);
    PrefixIffHeads(name, Text(run), raw);
  }

  /**
  The prefix of a run selects an id printed for `(other, otherRun)` exactly when they are the same
  strategy and run, or the other strategy's name itself begins like the prefix; a dot-free name never does.
   */
  lemma PrefixExact(name: string, run: UUID, other: string, otherRun: UUID, suffix: string)
    requires DotFree(name)
    ensures BuildPrefix(name, run) <= Build(other, otherRun, suffix) <==>
            (name == other && run == otherRun) || BuildPrefix(name, run) <= other + "."
    ensures DotFree(other) ==> !(BuildPrefix(name, run) <= other + ".")
  {
    var prefix, raw := BuildPrefix(name, run), Build(other, otherRun, suffix);
    var tail := Text(otherRun) + "." + suffix;
    assert raw == (other + ".") + tail;
    TextInjective(run, otherRun);
    PrefixIffSplit(name, run, raw);
    if DotFree(other) {
      SplitBuild(other, otherRun, suffix);
      DotFreeNoPrefix(name, Text(run), other);
    } else if prefix <= raw && !(prefix <= other + ".") {
      TextRoundTrip(run);
      DottedNameNoOverlap(name, Text(run), other, tail);
    }
  }

  lemma DotFreeNoPrefix(a: string, b: string, s: string)
    requires DotFree(s)
    ensures !(a + "." + b + "." <= s + ".")
  {
    var p := a + "." + b + ".";
    assert p[|a|] == '.';
    assert |a| < |s| ==> (s + ".")[|a|] == s[|a|];
  }

  /** With a dot in `other`, a prefix that matches the id already matches inside `other.`. */
  lemma DottedNameNoOverlap(a: string, b: string, other: string, tail: string)
    requires DotFree(a) && DotFree(b) && !DotFree(other)
    requires a + "." + b + "." <= other + "." + tail
    ensures a + "." + b + "." <= other + "."
  {
    var prefix, head := a + "." + b + ".", other + ".";
    SinglePrefixDot(a, b);
    TwoPrefixes(prefix, head, head + tail);
    if !(prefix <= head) {
      // Both dots of `head` would have to be the one inner dot of the prefix.
      TwoDots(prefix, other, |a|);
    }
  }

  lemma TwoDots(p: string, s: string, k: nat)
    requires !DotFree(s) && s + "." <= p && |s| + 1 < |p|
    ensures exists i :: 0 <= i < |p| - 1 && p[i] == '.' && i != k
  {
    assert (s + ".")[FirstDot(s)] == p[FirstDot(s)];
    assert (s + ".")[|s|] == p[|s|];
  }

  lemma SinglePrefixDot(a: string, b: string)
    requires DotFree(a) && DotFree(b)
    ensures var s := a + "." + b + ".";
            forall k :: 0 <= k < |s| - 1 && s[k] == '.' ==> k == |a|
  {
    var s := a + "." + b + ".";
    assert forall k :: 0 <= k < |a| ==> s[k] == a[k];
    assert forall k :: |a| < k < |s| - 1 ==> s[k] == b[k - |a| - 1];
  }

  lemma TwoPrefixes(p: string, q: string, s: string)
    requires p <= s && q <= s
    ensures p <= q || (q <= p && |q| < |p|)
  {
  }

  /** A name with dots can be mistaken for another strategy's run. */
  lemma DottedNameCollides(name: string, run: UUID, otherRun: UUID, suffix: string)
    ensures BuildPrefix(name, run) <= Build(name + "." + Text(run), otherRun, suffix)
  {
    assert Build(name + "." + Text(run), otherRun, suffix)
        == BuildPrefix(name, run) + (Text(otherRun) + "." + suffix);
  }

  // ---- The stream filter --------------------------------------------------------------------

  /** Every id printed for a known dot-free strategy is forwarded iff its run is live and the user's own. */
  lemma TranslateBuild(known: set<string>, lookup: UUID -> Option<Run>, user: string,
                       name: string, run: UUID, suffix: string)
    requires DotFree(name)
    ensures Translate(known, lookup, Some(Build(name, run, suffix)), user) ==
            if name in known && (lookup(run) == Some(Run(user, "running")) || lookup(run) == Some(Run(user, "paused")))
            then Some(OrderEvent(user, run)) else None
  {
    SplitBuild(name, run, suffix);
    TextRoundTrip(run);
  }

  /** However spelled, an id of three parts is forwarded iff its name is known and its run parses, is live and the user's own. */
  lemma TranslateParts(known: set<string>, lookup: UUID -> Option<Run>, user: string, name: string, id: string, suffix: string)
    requires DotFree(name) && DotFree(id)
    ensures var r, run := Translate(known, lookup, Some(name + "." + id + "." + suffix), user), ParseText(id);
            && (r.Some? <==> name in known && run.Some?
                             && (lookup(run.value) == Some(Run(user, "running")) || lookup(run.value) == Some(Run(user, "paused"))))
            && (r.Some? ==> r.value == OrderEvent(user, run.value))
  {
    SplitThree(name, id, suffix);
    hide SplitN, ParseText;
  }

  /** Nothing else is forwarded. */
  lemma ForwardedHasParts(known: set<string>, lookup: UUID -> Option<Run>, user: string, raw: Option<string>)
    returns (name: string, id: string, suffix: string)
    requires Translate(known, lookup, raw, user).Some?
    ensures DotFree(name) && DotFree(id) && raw == Some(name + "." + id + "." + suffix)
  {
    hide SplitN, ParseText, DotFree;
    name, id, suffix := ThreeParts(raw.value);
  }

  lemma ThreeParts(s: string) returns (a: string, b: string, c: string)
    requires |SplitN(s, 3)| == 3
    ensures DotFree(a) && DotFree(b) && s == a + "." + b + "." + c
  {
    HeadIsDotFree(s, 3);
    a := SplitN(s, 3)[0];
    var rest := s[|a| + 1..];
    HeadIsDotFree(rest, 2);
    hide SplitN, DotFree;
    b := SplitN(rest, 2)[0];
    c := rest[|b| + 1..];
    Regroup(a, b, c, rest);
  }

  lemma Regroup(a: string, b: string, c: string, rest: string)
    requires rest == b + "." + c
    ensures a + "." + rest == a + "." + b + "." + c
  {
  }

  /** A forwarded id whose run segment is in canonical text is found again by that run's listing prefix. */
  lemma ForwardedIsListed(known: set<string>, lookup: UUID -> Option<Run>, raw: string, user: string)
    requires Translate(known, lookup, Some(raw), user).Some?
    ensures var run := Translate(known, lookup, Some(raw), user).value.runID;
            SplitN(raw, 3)[1] == Text(run) <==>
            exists name | name in known && DotFree(name) :: BuildPrefix(name, run) <= raw
  {
    var run := Translate(known, lookup, Some(raw), user).value.runID;
    var p := SplitN(raw, 3);
    HeadIsDotFree(raw, 3);
    PrefixIffSplit(p[0], run, raw);
    forall name | name in known && DotFree(name) && BuildPrefix(name, run) <= raw
      ensures p[1] == Text(run)
    {
      PrefixIffSplit(name, run, raw);
    }
  }
}
