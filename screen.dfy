/**
 * The text of the screen of src/Screen.js: video memory read as 32 lines of
 * 64 characters. The top bit of each byte is ignored, control codes and the
 * space show as a no-break space, and every other code shows as itself.
 */
module Display {

  const LINES := 32
  const COLUMNS := 64

  /** Number of video-memory bytes the screen shows. */
  const VRAM_SHOWN := LINES * COLUMNS

  /** The no-break space the screen shows for blanks. */
  const NBSP: char := '\U{00A0}'

  /**
   * The byte at index `k` of the video memory. Past the end of the array the
   * lookup yields `undefined`, which masks to 0.
   */
  function ByteAt(vram: seq<bv8>, k: nat): bv8
  {
    if k < |vram| then vram[k] else 0
  }

  /** The character shown for a video-memory byte. */
  function CharOf(b: bv8): (c: char)
    ensures c != ' ' && c as int >= 32
    ensures (b & 0x7F) as int <= 32 <==> c == NBSP
    ensures (b & 0x7F) as int > 32 ==> c as int == (b & 0x7F) as int
  {
    var code := (b & 0x7F) as int;
    if code <= 32 then NBSP else code as char
  }

  /** The character depends on the low seven bits only. */
  lemma CharOfLowBits(b: bv8, b': bv8)
    requires b & 0x7F == b' & 0x7F
    ensures CharOf(b) == CharOf(b')
  {
  }

  /** A byte and the same byte with bit 7 flipped show the same character. */
  lemma CharIgnoresBitSeven(b: bv8)
    ensures CharOf(b) == CharOf(b ^ 0x80)
  {
    assert (b ^ 0x80) & 0x7F == b & 0x7F;
    CharOfLowBits(b, b ^ 0x80);
  }

  /** Line `i`: the characters of bytes `i * 64` to `i * 64 + 63`. */
  function Line(vram: seq<bv8>, i: nat): (line: string)
  {
    seq(COLUMNS, j requires 0 <= j < COLUMNS => CharOf(ByteAt(vram, i * COLUMNS + j)))
  }

  /** The text of `lines()`: 32 lines, line `i` made of row `i` of the video memory. */
  function Render(vram: seq<bv8>): (text: seq<string>)
  {
    seq(LINES, i requires 0 <= i < LINES => Line(vram, i))
  }

  /**
   * The shape of the screen and where each character comes from: 32 lines of
   * 64 characters, character `j` of line `i` shows byte `i * 64 + j`.
   */
  lemma RenderShape(vram: seq<bv8>)
    ensures |Render(vram)| == LINES
    ensures forall i :: 0 <= i < LINES ==> |Render(vram)[i]| == COLUMNS
    ensures forall i, j :: 0 <= i < LINES && 0 <= j < COLUMNS ==>
      Render(vram)[i][j] == CharOf(ByteAt(vram, i * COLUMNS + j))
  {
  }

  /** Only the first 0x800 bytes of video memory are shown. */
  lemma RenderReadsOnlyShownBytes(vram: seq<bv8>, vram': seq<bv8>)
    requires forall k :: 0 <= k < VRAM_SHOWN ==> ByteAt(vram, k) == ByteAt(vram', k)
    ensures Render(vram) == Render(vram')
  {
    forall i | 0 <= i < LINES
      ensures Line(vram, i) == Line(vram', i)
    {
      forall j | 0 <= j < COLUMNS
        ensures Line(vram, i)[j] == Line(vram', i)[j]
      {
        assert i * COLUMNS + j < VRAM_SHOWN;
      }
    }
  }

  /** Video memories that differ only in bit 7 of their bytes show the same text. */
  lemma RenderIgnoresBitSeven(vram: seq<bv8>, vram': seq<bv8>)
    requires |vram| == |vram'|
    requires forall k :: 0 <= k < |vram| ==> vram[k] & 0x7F == vram'[k] & 0x7F
    ensures Render(vram) == Render(vram')
  {
    forall i | 0 <= i < LINES
      ensures Line(vram, i) == Line(vram', i)
    {
      forall j | 0 <= j < COLUMNS
        ensures Line(vram, i)[j] == Line(vram', i)[j]
      {
        var k := i * COLUMNS + j;
        CharOfLowBits(ByteAt(vram, k), ByteAt(vram', k));
      }
    }
  }

  /**
   * `lines()`: builds each line a character at a time, raising codes below
   * 32 to 32 and showing 32 as a no-break space.
   */
  method Lines(vram: seq<bv8>) returns (l: seq<string>)
    ensures l == Render(vram)
  {
    l := [];
    for i := 0 to LINES
      invariant |l| == i
      invariant forall k :: 0 <= k < i ==> l[k] == Line(vram, k)
    {
      var line := "";
      for j := 0 to COLUMNS
        invariant line == Line(vram, i)[..j]
      {
        var code := (ByteAt(vram, i * COLUMNS + j) & 0x7F) as int;
        if code < 32 {
          code := 32;
        }
        if code == 32 {
          line := line + [NBSP];
        } else {
          line := line + [code as char];
        }
      }
      l := l + [line];
    }
  }
}
