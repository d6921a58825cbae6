/**
  Upper-case hexadecimal text, as `sprintf("%02X", b)` writes it, and the
  reading back of such text used to state that the rendering loses nothing.
 */
module Hex {
  import opened Bytes
  import opened Reads
  import opened Seqs

  /** The digit for a nibble: '0'..'9' then 'A'..'F'. */
  function Digit(n: nat): (c: char)
    requires n < 16
    ensures IsDigit(c)
  {
    if n < 10 then ('0' as int + n) as char else ('A' as int + n - 10) as char
  }

  predicate IsDigit(c: char) {
    ('0' <= c <= '9') || ('A' <= c <= 'F')
  }

  /** The nibble an upper-case hex digit stands for. */
  function DigitValue(c: char): (r: Option<nat>)
    ensures r.Some? <==> IsDigit(c)
    ensures r.Some? ==> r.value < 16 && Digit(r.value) == c
  {
    if '0' <= c <= '9' then Some(c as int - '0' as int)
    else if 'A' <= c <= 'F' then Some(c as int - 'A' as int + 10)
    else None
  }

  /** `%02X`: two digits, high nibble first. */
  function ByteToHex(b: byte): (s: string)
    ensures |s| == 2 && IsDigit(s[0]) && IsDigit(s[1])
  {
    [Digit(b / 16), Digit(b % 16)]
  }

  /** The bytes of `bs` rendered one after the other. */
  function Render(bs: seq<byte>): (s: string)
    ensures |s| == 2 * |bs|
  {
    if |bs| == 0 then "" else ByteToHex(bs[0]) + Render(bs[1..])
  }

  /** Reads hex pairs back into bytes; `None` on an odd length or a non-digit. */
  function Parse(s: string): Option<seq<byte>>
  {
    if |s| == 0 then Some([])
    else if |s| == 1 then None
    else
      match (DigitValue(s[0]), DigitValue(s[1]), Parse(s[2..]))
      case (Some(hi), Some(lo), Some(rest)) => Some([hi * 16 + lo] + rest)
      case _ => None
  }

  /** Drops every '-' from a string. */
  function StripDashes(s: string): (r: string)
    ensures |r| <= |s|
  {
    if |s| == 0 then ""
    else (if s[0] == '-' then "" else [s[0]]) + StripDashes(s[1..])
  }

  lemma RenderOne(b: byte)
    ensures Render([b]) == ByteToHex(b)
  {
    assert [b][1..] == [];
  }

  lemma {:induction false} RenderAppend(a: seq<byte>, b: seq<byte>)
    ensures Render(a + b) == Render(a) + Render(b)
  {
    if |a| == 0 {
      assert a + b == b;
    } else {
      assert (a + b)[1..] == a[1..] + b;
      RenderAppend(a[1..], b);
    }
  }

  /** Rendering a slice one byte longer appends that byte's two digits. */
  lemma RenderSnoc(u: seq<byte>, a: nat, b: nat)
    requires a < b <= |u|
    ensures Render(u[a..b]) == Render(u[a..b - 1]) + ByteToHex(u[b - 1])
  {
    SliceSnoc(u, a, b);
    RenderAppend(u[a..b - 1], [u[b - 1]]);
    RenderOne(u[b - 1]);
  }

  /** Every character of rendered bytes is an upper-case hex digit. */
  lemma {:induction false} RenderIsDigits(bs: seq<byte>)
    ensures forall k :: 0 <= k < |Render(bs)| ==> IsDigit(Render(bs)[k])
  {
    if |bs| > 0 {
      RenderIsDigits(bs[1..]);
      var s := Render(bs);
      assert s == ByteToHex(bs[0]) + Render(bs[1..]);
      forall k | 0 <= k < |s|
        ensures IsDigit(s[k])
      {
        if k >= 2 {
          assert s[k] == Render(bs[1..])[k - 2];
        }
      }
    }
  }

  /** Reading the rendering back yields the bytes in order. */
  lemma {:induction false} ParseRender(bs: seq<byte>)
    ensures Parse(Render(bs)) == Some(bs)
  {
    if |bs| > 0 {
      var s := Render(bs);
      var b := bs[0];
      assert s[..2] == ByteToHex(b);
      assert s[2..] == Render(bs[1..]);
      ParseRender(bs[1..]);
      assert DigitValue(s[0]) == Some(b / 16);
      assert DigitValue(s[1]) == Some(b % 16);
      assert [b] + bs[1..] == bs;
    }
  }

  lemma {:induction false} StripDashesAppend(a: string, b: string)
    ensures StripDashes(a + b) == StripDashes(a) + StripDashes(b)
  {
    if |a| == 0 {
      assert a + b == b;
    } else {
      assert (a + b)[0] == a[0];
      assert (a + b)[1..] == a[1..] + b;
      StripDashesAppend(a[1..], b);
    }
  }

  lemma StripDashesDash()
    ensures StripDashes("-") == ""
  {
  }

  /** Stripping the dashes from two texts joined by a dash joins the stripped texts. */
  lemma StripDashesJoin(a: string, b: string)
    ensures StripDashes(a + "-" + b) == StripDashes(a) + StripDashes(b)
  {
    var d := "-";
    StripDashesAppend(a, d);
    StripDashesAppend(a + d, b);
    StripDashesDash();
  }

  /** Rendered bytes hold no dash, so stripping dashes leaves them alone. */
  lemma {:induction false} StripDashesRender(bs: seq<byte>)
    ensures StripDashes(Render(bs)) == Render(bs)
  {
    if |bs| > 0 {
      var h := ByteToHex(bs[0]);
      StripDashesAppend(h, Render(bs[1..]));
      assert h == [h[0]] + [h[1]];
      StripDashesAppend([h[0]], [h[1]]);
      assert StripDashes([h[0]]) == [h[0]];
      assert StripDashes([h[1]]) == [h[1]];
      StripDashesRender(bs[1..]);
    }
  }
}
