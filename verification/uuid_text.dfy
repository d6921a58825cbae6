/**
  The text form `uuidToString` gives a 16-byte UUID: upper-case hex digits
  in the 8-4-4-4-12 grouping, `XXXXXXXX-XXXX-XXXX-XXXX-XXXXXXXXXXXX`.
 */
module UuidText {
  import opened Bytes
  import opened Reads
  import opened Hex
  import opened Seqs

  /** The loop writes a dash before bytes 4, 6, 8 and 10. */
  predicate DashBefore(i: nat) {
    i == 4 || i == 6 || i == 8 || i == 10
  }

  /** The loop of `uuidToString` from byte `i` on, with `acc` the text written so far; a dash is only written once `acc` is not empty. */
  function Format(u: seq<byte>, i: nat, acc: string): string
    requires |u| == 16 && i <= 16
    decreases 16 - i
  {
    if i == 16 then acc
    else
      var dashed := if |acc| > 0 && DashBefore(i) then acc + "-" else acc;
      Format(u, i + 1, dashed + ByteToHex(u[i]))
  }

  /** The 8-4-4-4-12 form: the UUID's bytes in hex, grouped 4, 2, 2, 2 and 6 bytes. */
  function Grouped(u: seq<byte>): string
    requires |u| == 16
  {
    Render(u[..4]) + "-" + Render(u[4..6]) + "-" + Render(u[6..8]) + "-" + Render(u[8..10]) + "-" + Render(u[10..])
  }

  /** `uuidToString`: the loop over the 16 bytes, starting from the empty string. */
  function UuidToString(u: seq<byte>): (s: string)
    requires |u| == 16
    ensures s == Grouped(u)
    ensures |s| == 36
  {
    FormatIsGrouped(u);
    Format(u, 0, "")
  }

  /** The text the loop has written after its first `i` turns. */
  function Written(u: seq<byte>, i: nat): (s: string)
    requires |u| == 16 && i <= 16
  {
    if i == 0 then ""
    else (if DashBefore(i - 1) then Written(u, i - 1) + "-" else Written(u, i - 1)) + ByteToHex(u[i - 1])
  }

  lemma {:induction false} FormatFromWritten(u: seq<byte>, i: nat)
    requires |u| == 16 && i <= 16
    decreases 16 - i
    ensures Format(u, i, Written(u, i)) == Written(u, 16)
  {
    if i < 16 {
      assert DashBefore(i) ==> i > 0 && |Written(u, i)| > 0;
      FormatFromWritten(u, i + 1);
    }
  }

  /** No dash position lies strictly between `a` and `b`. */
  predicate NoDashWithin(a: nat, b: nat) {
    forall d: nat :: a < d < b ==> !DashBefore(d)
  }

  /** A turn of the loop that writes no dash appends the byte's two digits. */
  lemma WrittenStep(u: seq<byte>, i: nat)
    requires |u| == 16 && 0 < i <= 16 && !DashBefore(i - 1)
    ensures Written(u, i) == Written(u, i - 1) + ByteToHex(u[i - 1])
  {
  }

  /** What the loop has written just before byte `a`'s digits: its text after `a` turns, and a dash if one goes before `a`. */
  function Lead(u: seq<byte>, a: nat): string
    requires |u| == 16 && a <= 16
  {
    if DashBefore(a) then Written(u, a) + "-" else Written(u, a)
  }

  /** A run of one byte: the lead, then that byte's two digits. */
  lemma WrittenRunOne(u: seq<byte>, a: nat)
    requires |u| == 16 && a < 16
    ensures Written(u, a + 1) == Lead(u, a) + Render(u[a..a + 1])
  {
    assert u[a..a + 1] == [u[a]];
    RenderOne(u[a]);
  }

  /** One more byte of a dash-free run: its two digits extend the run. */
  lemma WrittenRunStep(u: seq<byte>, a: nat, b: nat)
    requires |u| == 16 && a + 1 < b <= 16 && !DashBefore(b - 1)
    requires Written(u, b - 1) == Lead(u, a) + Render(u[a..b - 1])
    ensures Written(u, b) == Lead(u, a) + Render(u[a..b])
  {
    WrittenStep(u, b);
    RenderSnoc(u, a, b);
    Associate(Lead(u, a), Render(u[a..b - 1]), ByteToHex(u[b - 1]));
  }

  /** Between two dash positions the loop writes the bytes' hex digits back to back. */
  lemma {:induction false} WrittenRun(u: seq<byte>, a: nat, b: nat)
    requires |u| == 16 && a < b <= 16 && NoDashWithin(a, b)
    decreases b - a
    ensures Written(u, b) == Lead(u, a) + Render(u[a..b])
  {
    if b == a + 1 {
      WrittenRunOne(u, a);
    } else {
      WrittenRun(u, a, b - 1);
      WrittenRunStep(u, a, b);
    }
  }

  /** The loop's text after each group of bytes. */
  lemma WrittenGroups(u: seq<byte>)
    requires |u| == 16
    ensures Written(u, 4) == Render(u[..4])
    ensures Written(u, 6) == Written(u, 4) + "-" + Render(u[4..6])
    ensures Written(u, 8) == Written(u, 6) + "-" + Render(u[6..8])
    ensures Written(u, 10) == Written(u, 8) + "-" + Render(u[8..10])
    ensures Written(u, 16) == Written(u, 10) + "-" + Render(u[10..])
  {
    assert Written(u, 4) == Render(u[..4]) by {
      WrittenRun(u, 0, 4);
      assert u[0..4] == u[..4];
    }
    assert Written(u, 6) == Written(u, 4) + "-" + Render(u[4..6]) by {
      WrittenRun(u, 4, 6);
    }
    assert Written(u, 8) == Written(u, 6) + "-" + Render(u[6..8]) by {
      WrittenRun(u, 6, 8);
    }
    assert Written(u, 10) == Written(u, 8) + "-" + Render(u[8..10]) by {
      WrittenRun(u, 8, 10);
    }
    assert Written(u, 16) == Written(u, 10) + "-" + Render(u[10..]) by {
      WrittenRun(u, 10, 16);
      SliceToEnd(u, 10);
    }
  }

  lemma FormatIsGrouped(u: seq<byte>)
    requires |u| == 16
    ensures Format(u, 0, "") == Grouped(u)
  {
    FormatFromWritten(u, 0);
    WrittenGroups(u);
  }

  /**
    The text is 36 characters: dashes at 8, 13, 18 and 23 and upper-case hex
    digits everywhere else.
   */
  lemma UuidTextLayout(u: seq<byte>)
    requires |u| == 16
    ensures var s := UuidToString(u);
      && |s| == 36
      && (forall k :: 0 <= k < |s| ==> (s[k] == '-' <==> k == 8 || k == 13 || k == 18 || k == 23))
      && (forall k :: 0 <= k < |s| && s[k] != '-' ==> IsDigit(s[k]))
  {
    var s := UuidToString(u);
    var p0, p1, p2, p3, p4 := Render(u[..4]), Render(u[4..6]), Render(u[6..8]), Render(u[8..10]), Render(u[10..]);
    RenderIsDigits(u[..4]);
    RenderIsDigits(u[4..6]);
    RenderIsDigits(u[6..8]);
    RenderIsDigits(u[8..10]);
    RenderIsDigits(u[10..]);
    assert s == p0 + "-" + p1 + "-" + p2 + "-" + p3 + "-" + p4;
    forall k | 0 <= k < |s|
      ensures (s[k] == '-' <==> k == 8 || k == 13 || k == 18 || k == 23)
      ensures s[k] != '-' ==> IsDigit(s[k])
    {
      if k < 8 {
        assert s[k] == p0[k];
      } else if 8 < k < 13 {
        assert s[k] == p1[k - 9];
      } else if 13 < k < 18 {
        assert s[k] == p2[k - 14];
      } else if 18 < k < 23 {
        assert s[k] == p3[k - 19];
      } else if 23 < k {
        assert s[k] == p4[k - 24];
      }
    }
  }

  /** Stripping the dashes from text, a dash and a rendering joins the bytes they came from. */
  lemma StripJoin(s: string, a: seq<byte>, b: seq<byte>)
    requires StripDashes(s) == Render(a)
    ensures StripDashes(s + "-" + Render(b)) == Render(a + b)
  {
    StripDashesJoin(s, Render(b));
    StripDashesRender(b);
    RenderAppend(a, b);
  }

  /** Removing the dashes and reading the hex pairs gives back the 16 bytes in order. */
  lemma UuidTextRoundTrip(u: seq<byte>)
    requires |u| == 16
    ensures Hex.Parse(StripDashes(UuidToString(u))) == Some(u)
  {
    var g0 := Render(u[..4]);
    StripDashesRender(u[..4]);
    var g1 := g0 + "-" + Render(u[4..6]);
    StripJoin(g0, u[..4], u[4..6]);
    assert u[..4] + u[4..6] == u[..6];
    var g2 := g1 + "-" + Render(u[6..8]);
    StripJoin(g1, u[..6], u[6..8]);
    assert u[..6] + u[6..8] == u[..8];
    var g3 := g2 + "-" + Render(u[8..10]);
    StripJoin(g2, u[..8], u[8..10]);
    assert u[..8] + u[8..10] == u[..10];
    var g4 := g3 + "-" + Render(u[10..]);
    StripJoin(g3, u[..10], u[10..]);
    assert u[..10] + u[10..] == u;
    assert g4 == UuidToString(u);
    ParseRender(u);
  }
}
