/** The hex dump `wdm_log_data` of include/log.h: its text, the lines of the text, and a reader that
    recovers the bytes from it. */
module HexDump {
  import opened Prelude

  const RESET := "\U{1B}[0m"

  function Digit(n: nat): char
    requires n < 16
  {
    "0123456789ABCDEF"[n]
  }

  /** The text of "%02X ". */
  function Hex(b: byte): (text: string)
    ensures |text| == 3
  {
    [Digit(b / 16), Digit(b % 16), ' ']
  }

  /** m bytes may be shown: there are that many, and a positive max allows them. */
  predicate Admissible(m: int, size: int, max: int) {
    1 <= m <= size && (max > 0 ==> m <= max)
  }

  /** The number of bytes shown is the largest admissible one. */
  function Shown(size: int, max: int): (n: int)
    ensures size > 0 ==> Admissible(n, size, max) && forall m :: Admissible(m, size, max) ==> m <= n
  {
    if max > size || max <= 0 then size else max
  }

  /** The newline before byte i, if any. `i % split == 0` says that split divides i, whatever the sign
      of split. */
  function Break(i: nat, split: int): string
    requires split != 0
  {
    if i % split == 0 then "\n" else ""
  }

  /** The text the loop prints. */
  function Body(bytes: seq<byte>, split: int): string
    requires split != 0
  {
    if |bytes| == 0 then ""
    else
      var i := |bytes| - 1;
      Body(bytes[..i], split) + (Break(i, split) + Hex(bytes[i]))
  }

  /** `wdm_log_data` (include/log.h:120-138); `header` is the text of its first printf(). With split 0
      the remainder is undefined in C. */
  method LogData(header: string, data: array?<byte>, size: int, max: int, split: int) returns (out: string)
    requires data != null && size > 0 ==> size <= data.Length && split != 0
    ensures data == null || size <= 0 ==> out == ""
    ensures data != null && size > 0 ==>
      var n := Shown(size, max);
      && Admissible(n, size, max) && (forall m :: Admissible(m, size, max) ==> m <= n)
      && out == header + Body(data[..n], split) + RESET + "\n"
      && Read(out[|header|..|out| - |RESET| - 1]) == Some(data[..n])
  {
    hide Hex, Read;
    if data == null || size <= 0 {
      return "";
    }
    var n := max;
    if n > size || n <= 0 {
      n := size;
    }
    out := header;
    var i := 0;
    while i < n
      invariant 0 <= i <= n && out == header + Body(data[..i], split)
    {
      if i % split == 0 {
        out := out + "\n";
      }
      var c := data[i];
      out := out + Hex(c);
      i := i + 1;
      assert data[..i][..i - 1] == data[..i - 1];
    }
    ghost var body := Body(data[..n], split);
    out := out + RESET + "\n";
    assert out == header + body + (RESET + "\n");
    assert out[|header|..|out| - |RESET| - 1] == body;
    RoundTrip(data[..n], split);
  }

  // ----- Reading a dump -----

  predicate IsDigit(c: char) {
    '0' <= c <= '9' || 'A' <= c <= 'F'
  }

  function Value(c: char): (n: nat)
    requires IsDigit(c)
    ensures n < 16
  {
    if c <= '9' then c as int - '0' as int else c as int - 'A' as int + 10
  }

  /** Two digits and a blank. */
  predicate IsGroup(text: string) {
    |text| == 3 && IsDigit(text[0]) && IsDigit(text[1]) && text[2] == ' '
  }

  function GroupValue(text: string): byte
    requires IsGroup(text)
  {
    16 * Value(text[0]) + Value(text[1])
  }

  /** A reader that knows nothing of lines: it skips newlines and reads groups. */
  function Read(text: string): Option<seq<byte>>
    decreases |text|
  {
    if |text| == 0 then Some([])
    else if text[0] == '\n' then Read(text[1..])
    else if |text| < 3 || !IsGroup(text[..3]) || Read(text[3..]) == None then None
    else Some([GroupValue(text[..3])] + Read(text[3..]).value)
  }

  lemma HexIsGroup(b: byte)
    ensures IsGroup(Hex(b)) && GroupValue(Hex(b)) == b && Hex(b)[0] != '\n'
  {
    var s := "0123456789ABCDEF";
    assert forall n :: 0 <= n < 16 ==> IsDigit(s[n]) && Value(s[n]) == n;
  }

  /** The two characters in ASCII: digits from code 48 on, capital letters from code 65 on, the higher half
      of the byte first. */
  lemma HexInAscii(b: byte)
    ensures Hex(b)[0] as int == b / 16 + if b / 16 < 10 then 48 else 55
    ensures Hex(b)[1] as int == b % 16 + if b % 16 < 10 then 48 else 55
    ensures Hex(b)[2] == ' '
  {
    var s := "0123456789ABCDEF";
    assert forall n :: 0 <= n < 16 ==> s[n] as int == n + if n < 10 then 48 else 55;
  }

  /** Reading continues after a readable text. */
  lemma {:induction false} ReadAppend(a: string, b: string)
    requires Read(a).Some? && Read(b).Some?
    ensures Read(a + b) == Some(Read(a).value + Read(b).value)
    decreases |a|
  {
    hide IsGroup, GroupValue;
    if |a| == 0 {
      assert a + b == b && Read(a).value + Read(b).value == Read(b).value;
    } else if a[0] == '\n' {
      assert (a + b)[1..] == a[1..] + b;
      ReadAppend(a[1..], b);
    } else {
      assert (a + b)[3..] == a[3..] + b && (a + b)[..3] == a[..3];
      ReadAppend(a[3..], b);
      var first, middle, last := [GroupValue(a[..3])], Read(a[3..]).value, Read(b).value;
      assert first + (middle + last) == (first + middle) + last;
    }
  }

  lemma ReadHex(b: byte)
    ensures Read(Hex(b)) == Some([b]) && Read("\n" + Hex(b)) == Some([b])
  {
    HexIsGroup(b);
    hide IsGroup, GroupValue, Hex;
    var text := Hex(b);
    assert text[..3] == text && text[3..] == "" && [b] + [] == [b];
    assert Read(text[3..]) == Some([]);
    assert ("\n" + text)[1..] == text;
  }

  /** The dump is invertible: for every byte sequence and every split, reading the text gives back the
      bytes. */
  lemma {:induction false} RoundTrip(bytes: seq<byte>, split: int)
    requires split != 0
    ensures Read(Body(bytes, split)) == Some(bytes)
  {
    if |bytes| == 0 {
      assert bytes == [];
    } else {
      var i := |bytes| - 1;
      RoundTrip(bytes[..i], split);
      ReadHex(bytes[i]);
      hide Read, Hex;
      var tail := Break(i, split) + Hex(bytes[i]);
      assert Read(tail) == Some([bytes[i]]) by {
        assert i % split != 0 ==> tail == Hex(bytes[i]);
      }
      hide Break;
      ReadAppend(Body(bytes[..i], split), tail);
      assert Body(bytes, split) == Body(bytes[..i], split) + tail;
      assert bytes == bytes[..i] + [bytes[i]];
    }
  }

  // ----- The lines of a dump -----

  /** The bytes of each line. */
  function Lines(bytes: seq<byte>, split: nat): seq<seq<byte>>
    requires split > 0
  {
    if |bytes| == 0 then []
    else if |bytes| <= split then [bytes]
    else [bytes[..split]] + Lines(bytes[split..], split)
  }

  function Line(bytes: seq<byte>): string {
    if |bytes| == 0 then "" else Line(bytes[..|bytes| - 1]) + Hex(bytes[|bytes| - 1])
  }

  /** Each line follows a newline. */
  function Render(lines: seq<seq<byte>>): string {
    if |lines| == 0 then "" else "\n" + Line(lines[0]) + Render(lines[1..])
  }

  lemma {:induction false} BodyOfOneLine(bytes: seq<byte>, split: nat)
    requires 0 < |bytes| <= split
    ensures Body(bytes, split) == "\n" + Line(bytes)
  {
    hide Hex;
    var i := |bytes| - 1;
    SmallMod(i, split);
    if i > 0 {
      BodyOfOneLine(bytes[..i], split);
    } else {
      assert bytes[..0] == [];
    }
  }

  lemma SmallMod(i: nat, split: nat)
    requires i < split
    ensures i % split == 0 <==> i == 0
  {
  }

  /** The text of a long dump is the text of its first `split` bytes and that of the others. */
  lemma {:induction false} BodySplit(bytes: seq<byte>, split: nat)
    requires split > 0 && |bytes| >= split
    ensures Body(bytes, split) == Body(bytes[..split], split) + Body(bytes[split..], split)
  {
    hide Hex, Break, Body;
    if |bytes| == split {
      assert bytes[..split] == bytes && bytes[split..] == [];
      BodyEmpty(split);
    } else {
      var i := |bytes| - 1;
      var front, rest, last := bytes[..i], bytes[split..i], bytes[i];
      SplitLast(bytes, split);
      BodySplit(front, split);
      BodyAppend(front, last, split);
      BodyAppend(rest, last, split);
      BreakShift(i - split, split);
      Regroup(Body(front[..split], split), Body(rest, split), Break(i, split) + Hex(last));
    }
  }

  lemma BodyEmpty(split: nat)
    requires split > 0
    ensures Body([], split) == ""
  {
  }

  /** The last byte is the last one of the part from n on, too. */
  lemma SplitLast(bytes: seq<byte>, n: nat)
    requires n < |bytes|
    ensures var i := |bytes| - 1;
            && bytes == bytes[..i] + [bytes[i]]
            && bytes[..i][..n] == bytes[..n] && bytes[..i][n..] == bytes[n..i]
            && bytes[n..] == bytes[n..i] + [bytes[i]]
  {
  }

  lemma Regroup(a: string, b: string, c: string)
    ensures (a + b) + c == a + (b + c)
  {
  }

  lemma BodyAppend(bytes: seq<byte>, last: byte, split: int)
    requires split != 0
    ensures Body(bytes + [last], split) == Body(bytes, split) + (Break(|bytes|, split) + Hex(last))
  {
    assert (bytes + [last])[..|bytes|] == bytes;
  }

  lemma BreakShift(i: nat, split: nat)
    requires split > 0
    ensures Break(i + split, split) == Break(i, split)
  {
    ModShift(i, split);
  }

  lemma ModShift(x: nat, split: nat)
    requires split > 0
    ensures (x + split) % split == x % split && (x + split) / split == x / split + 1
  {
    var q := x / split;
    assert x + split == (q + 1) * split + x % split;
    ModUnique(x + split, split, q + 1, x % split);
  }

  lemma ModUnique(x: nat, d: nat, q: nat, r: nat)
    requires d > 0 && x == q * d + r && r < d
    ensures x % d == r && x / d == q
  {
    var q', r' := x / d, x % d;
    assert (q - q') * d == r' - r;
    if q < q' {
      Multiple(q' - q, d);
    } else if q' < q {
      Multiple(q - q', d);
    }
  }

  lemma Multiple(k: nat, d: nat)
    requires k > 0
    ensures k * d >= d
  {
    assert k * d == d + (k - 1) * d;
  }

  /** The text is its lines, each after a newline. */
  lemma {:induction false} BodyIsLines(bytes: seq<byte>, split: nat)
    requires split > 0
    ensures Body(bytes, split) == Render(Lines(bytes, split))
    decreases |bytes|
  {
    if 0 < |bytes| <= split {
      BodyOfOneLine(bytes, split);
      assert Lines(bytes, split)[1..] == [];
    } else if |bytes| > split {
      BodySplit(bytes, split);
      BodyOfOneLine(bytes[..split], split);
      BodyIsLines(bytes[split..], split);
      assert Lines(bytes, split)[1..] == Lines(bytes[split..], split);
    }
  }

  function Concat(lines: seq<seq<byte>>): seq<byte> {
    if |lines| == 0 then [] else lines[0] + Concat(lines[1..])
  }

  /** ceil(n / split) lines; every line but the last holds exactly `split` bytes, the last one the
      others; together they hold the bytes. */
  lemma {:induction false} LinesShape(bytes: seq<byte>, split: nat)
    requires split > 0
    ensures var lines := Lines(bytes, split);
            && |lines| == (|bytes| + split - 1) / split
            && (forall k :: 0 <= k < |lines| - 1 ==> |lines[k]| == split)
            && (lines != [] ==> 1 <= |lines[|lines| - 1]| <= split)
            && Concat(lines) == bytes
    decreases |bytes|
  {
    var lines := Lines(bytes, split);
    if |bytes| == 0 {
      ModUnique(split - 1, split, 0, split - 1);
    } else if |bytes| <= split {
      ModUnique(|bytes| + split - 1, split, 1, |bytes| - 1);
      assert lines[1..] == [];
    } else {
      var rest := bytes[split..];
      LinesShape(rest, split);
      assert lines[1..] == Lines(rest, split);
      ModShift(|rest| + split - 1, split);
    }
  }

  lemma {:induction false} LineLength(bytes: seq<byte>)
    ensures |Line(bytes)| == 3 * |bytes|
  {
    if |bytes| > 0 {
      LineLength(bytes[..|bytes| - 1]);
    }
  }

  lemma {:induction false} RenderLength(lines: seq<seq<byte>>)
    ensures |Render(lines)| == 3 * |Concat(lines)| + |lines|
  {
    if |lines| > 0 {
      LineLength(lines[0]);
      RenderLength(lines[1..]);
    }
  }

  /** 3n characters for the bytes and ceil(n / split) newlines. */
  lemma BodyLength(bytes: seq<byte>, split: nat)
    requires split > 0
    ensures |Body(bytes, split)| == 3 * |bytes| + (|bytes| + split - 1) / split
  {
    BodyIsLines(bytes, split);
    LinesShape(bytes, split);
    RenderLength(Lines(bytes, split));
  }

  /** A negative split breaks the lines like its absolute value. */
  lemma {:induction false} NegativeSplit(bytes: seq<byte>, split: int)
    requires split < 0
    ensures Body(bytes, split) == Body(bytes, -split)
  {
    if |bytes| > 0 {
      var i := |bytes| - 1;
      NegativeSplit(bytes[..i], split);
      assert i % split == i % -split;
    }
  }
}
