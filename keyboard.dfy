/**
 * The keyboard matrix of src/Keyboard.js. The machine selects rows of an
 * 8-row key matrix by writing a byte and reads back the OR of the selected
 * rows. Key events update the set of held modifier ("meta") keys and the one
 * held ordinary key, after which the row bitmap is rebuilt from the keymap.
 */
module KeyboardMatrix {

  datatype Option<T> = None | Some(value: T)

  const KBD_ROWS := 8

  /** A row of the matrix. */
  type Row = r: int | 0 <= r < KBD_ROWS

  /** Where a key sits in the matrix, whether it is typed with shift, and whether it is a modifier. */
  datatype KeymapEntry = KeymapEntry(row: Row, mask: bv8, needsShift: bool, isMeta: bool)

  /** A table from key names (the `key` of a DOM keyboard event) to matrix entries. */
  type Keymap = map<string, KeymapEntry>

  const LEFT_SHIFT_ROW: Row := 0
  const LEFT_SHIFT_MASK: bv8 := 0x04

  /**
   * The key-name table. Upper- and lower-case letters share entries; the
   * shifted punctuation marks share a cell with an unshifted key and ask for
   * the left shift key.
   */
  const KEYMAP: Keymap := map[
    "a" := KeymapEntry(1, 0x40, false, false),
    "b" := KeymapEntry(2, 0x10, false, false),
    "c" := KeymapEntry(2, 0x40, false, false),
    "d" := KeymapEntry(3, 0x40, false, false),
    "e" := KeymapEntry(4, 0x40, false, false),
    "f" := KeymapEntry(3, 0x20, false, false),
    "g" := KeymapEntry(3, 0x10, false, false),
    "h" := KeymapEntry(3, 0x08, false, false),
    "i" := KeymapEntry(4, 0x02, false, false),
    "j" := KeymapEntry(3, 0x04, false, false),
    "k" := KeymapEntry(3, 0x02, false, false),
    "l" := KeymapEntry(5, 0x40, false, false),
    "m" := KeymapEntry(2, 0x04, false, false),
    "n" := KeymapEntry(2, 0x08, false, false),
    "o" := KeymapEntry(5, 0x20, false, false),
    "p" := KeymapEntry(1, 0x02, false, false),
    "q" := KeymapEntry(1, 0x80, false, false),
    "r" := KeymapEntry(4, 0x20, false, false),
    "s" := KeymapEntry(3, 0x80, false, false),
    "t" := KeymapEntry(4, 0x10, false, false),
    "u" := KeymapEntry(4, 0x04, false, false),
    "v" := KeymapEntry(2, 0x20, false, false),
    "w" := KeymapEntry(4, 0x80, false, false),
    "x" := KeymapEntry(2, 0x80, false, false),
    "y" := KeymapEntry(4, 0x08, false, false),
    "z" := KeymapEntry(1, 0x20, false, false),
    "A" := KeymapEntry(1, 0x40, false, false),
    "B" := KeymapEntry(2, 0x10, false, false),
    "C" := KeymapEntry(2, 0x40, false, false),
    "D" := KeymapEntry(3, 0x40, false, false),
    "E" := KeymapEntry(4, 0x40, false, false),
    "F" := KeymapEntry(3, 0x20, false, false),
    "G" := KeymapEntry(3, 0x10, false, false),
    "H" := KeymapEntry(3, 0x08, false, false),
    "I" := KeymapEntry(4, 0x02, false, false),
    "J" := KeymapEntry(3, 0x04, false, false),
    "K" := KeymapEntry(3, 0x02, false, false),
    "L" := KeymapEntry(5, 0x40, false, false),
    "M" := KeymapEntry(2, 0x04, false, false),
    "N" := KeymapEntry(2, 0x08, false, false),
    "O" := KeymapEntry(5, 0x20, false, false),
    "P" := KeymapEntry(1, 0x02, false, false),
    "Q" := KeymapEntry(1, 0x80, false, false),
    "R" := KeymapEntry(4, 0x20, false, false),
    "S" := KeymapEntry(3, 0x80, false, false),
    "T" := KeymapEntry(4, 0x10, false, false),
    "U" := KeymapEntry(4, 0x04, false, false),
    "V" := KeymapEntry(2, 0x20, false, false),
    "W" := KeymapEntry(4, 0x80, false, false),
    "X" := KeymapEntry(2, 0x80, false, false),
    "Y" := KeymapEntry(4, 0x08, false, false),
    "Z" := KeymapEntry(1, 0x20, false, false),
    "1" := KeymapEntry(7, 0x80, false, false),
    "2" := KeymapEntry(7, 0x40, false, false),
    "3" := KeymapEntry(7, 0x20, false, false),
    "4" := KeymapEntry(7, 0x10, false, false),
    "5" := KeymapEntry(7, 0x08, false, false),
    "6" := KeymapEntry(7, 0x04, false, false),
    "7" := KeymapEntry(7, 0x02, false, false),
    "8" := KeymapEntry(6, 0x80, false, false),
    "9" := KeymapEntry(6, 0x40, false, false),
    "0" := KeymapEntry(6, 0x20, false, false),
    "!" := KeymapEntry(7, 0x80, true, false),
    "\"" := KeymapEntry(7, 0x40, true, false),
    "#" := KeymapEntry(7, 0x20, true, false),
    "$" := KeymapEntry(7, 0x10, true, false),
    "%" := KeymapEntry(7, 0x08, true, false),
    "&" := KeymapEntry(7, 0x04, true, false),
    "'" := KeymapEntry(7, 0x02, true, false),
    "(" := KeymapEntry(6, 0x80, true, false),
    ")" := KeymapEntry(6, 0x40, true, false),
    ":" := KeymapEntry(6, 0x10, false, false),
    "*" := KeymapEntry(6, 0x10, true, false),
    "-" := KeymapEntry(6, 0x08, false, false),
    "=" := KeymapEntry(6, 0x08, true, false),
    ";" := KeymapEntry(1, 0x04, false, false),
    "+" := KeymapEntry(1, 0x04, true, false),
    "," := KeymapEntry(2, 0x02, false, false),
    "<" := KeymapEntry(2, 0x02, true, false),
    "." := KeymapEntry(5, 0x80, false, false),
    ">" := KeymapEntry(5, 0x80, true, false),
    "/" := KeymapEntry(1, 0x08, false, false),
    "?" := KeymapEntry(1, 0x08, true, false),
    " " := KeymapEntry(1, 0x10, false, false),
    "Backspace" := KeymapEntry(6, 0x04, false, false),
    "Escape" := KeymapEntry(0, 0x20, false, false),
    "Enter" := KeymapEntry(5, 0x08, false, false),
    // modifiers
    "CapsLock" := KeymapEntry(0, 0x01, false, true),
    "Control" := KeymapEntry(0, 0x40, false, true)
  ]

  /** True when `x` has a bit in common with `b`. */
  predicate Has(x: bv8, b: bv8)
  {
    x & b != 0
  }

  /** `1 << i`: the bit that selects row `i`. */
  function Bit(i: Row): bv8
  {
    (1 as bv8) << i
  }

  /** An or keeps exactly the bits of its two operands. */
  lemma HasOr(x: bv8, y: bv8, b: bv8)
    ensures Has(x | y, b) <==> Has(x, b) || Has(y, b)
  {
  }

  /** Two bytes with the same single bits are equal. */
  lemma SameBitsEqual(x: bv8, y: bv8)
    requires forall i: Row :: Has(x, Bit(i)) == Has(y, Bit(i))
    ensures x == y
  {
    assert Has(x, Bit(0)) == Has(y, Bit(0)) && Has(x, Bit(1)) == Has(y, Bit(1));
    assert Has(x, Bit(2)) == Has(y, Bit(2)) && Has(x, Bit(3)) == Has(y, Bit(3));
    assert Has(x, Bit(4)) == Has(y, Bit(4)) && Has(x, Bit(5)) == Has(y, Bit(5));
    assert Has(x, Bit(6)) == Has(y, Bit(6)) && Has(x, Bit(7)) == Has(y, Bit(7));
  }

  /** The OR of `rows[i]` over the rows `i < n` whose bit is set in `mask`. */
  function Selected(rows: seq<bv8>, mask: bv8, n: nat): bv8
    requires n <= KBD_ROWS && |rows| == KBD_ROWS
  {
    if n == 0 then 0
    else Selected(rows, mask, n - 1) | (if Has(mask, Bit(n - 1)) then rows[n - 1] else 0)
  }

  /** One more row: a bit is selected when it was, or the row is selected and has it. */
  lemma SelectedStep(rows: seq<bv8>, mask: bv8, n: nat, b: bv8)
    requires 0 < n <= KBD_ROWS && |rows| == KBD_ROWS
    ensures Has(Selected(rows, mask, n), b) <==>
      Has(Selected(rows, mask, n - 1), b) || (Has(mask, Bit(n - 1)) && Has(rows[n - 1], b))
  {
    HasOr(Selected(rows, mask, n - 1), if Has(mask, Bit(n - 1)) then rows[n - 1] else 0, b);
    if !Has(mask, Bit(n - 1)) {
      assert !Has(0, b);
    }
  }

  /** A selected row's bits show up in the selection. */
  lemma {:induction false} SelectedRowShows(rows: seq<bv8>, mask: bv8, n: nat, i: Row, b: bv8)
    requires n <= KBD_ROWS && |rows| == KBD_ROWS
    requires i < n && Has(mask, Bit(i)) && Has(rows[i], b)
    ensures Has(Selected(rows, mask, n), b)
    decreases n
  {
    SelectedStep(rows, mask, n, b);
    if i < n - 1 {
      SelectedRowShows(rows, mask, n - 1, i, b);
    }
  }

  /** Every bit of the selection comes from some selected row. */
  lemma {:induction false} SelectedRowOf(rows: seq<bv8>, mask: bv8, n: nat, b: bv8) returns (i: Row)
    requires n <= KBD_ROWS && |rows| == KBD_ROWS
    requires Has(Selected(rows, mask, n), b)
    ensures i < n && Has(mask, Bit(i)) && Has(rows[i], b)
    decreases n
  {
    if n == 0 {
      assert false;
    }
    SelectedStep(rows, mask, n, b);
    if Has(mask, Bit(n - 1)) && Has(rows[n - 1], b) {
      i := n - 1;
    } else {
      i := SelectedRowOf(rows, mask, n - 1, b);
    }
  }

  /** A bit is in the selection exactly when some selected row has it. */
  lemma SelectedBits(rows: seq<bv8>, mask: bv8, n: nat, b: bv8)
    requires n <= KBD_ROWS && |rows| == KBD_ROWS
    ensures Has(Selected(rows, mask, n), b) <==>
      exists i: Row :: i < n && Has(mask, Bit(i)) && Has(rows[i], b)
  {
    if Has(Selected(rows, mask, n), b) {
      var i := SelectedRowOf(rows, mask, n, b);
    }
    forall i: Row | i < n && Has(mask, Bit(i)) && Has(rows[i], b)
      ensures Has(Selected(rows, mask, n), b)
    {
      SelectedRowShows(rows, mask, n, i, b);
    }
  }

  /** With no row selected the matrix reads 0. */
  lemma {:induction false} NothingSelected(rows: seq<bv8>, n: nat)
    requires n <= KBD_ROWS && |rows| == KBD_ROWS
    ensures Selected(rows, 0, n) == 0
    decreases n
  {
    if n > 0 {
      NothingSelected(rows, n - 1);
      assert !Has(0, Bit(n - 1));
    }
  }

  /** Selecting more rows reads back a superset of the bits. */
  lemma {:induction false} SelectionMonotone(rows: seq<bv8>, small: bv8, large: bv8, n: nat)
    requires n <= KBD_ROWS && |rows| == KBD_ROWS
    requires small & large == small
    ensures Selected(rows, small, n) & Selected(rows, large, n) == Selected(rows, small, n)
    decreases n
  {
    if n > 0 {
      SelectionMonotone(rows, small, large, n - 1);
      if Has(small, Bit(n - 1)) {
        assert Has(large, Bit(n - 1));
      }
    }
  }

  /** Eight clear rows. */
  const CLEAR_ROWS: seq<bv8> := [0, 0, 0, 0, 0, 0, 0, 0]

  /** `rows` with `mask` or-ed into row `row`. */
  function Light(rows: seq<bv8>, row: Row, mask: bv8): (r: seq<bv8>)
    requires |rows| == KBD_ROWS
    ensures |r| == KBD_ROWS
  {
    rows[row := rows[row] | mask]
  }

  /** A bit of a lit row is set exactly when it was set before or belongs to the lit mask. */
  lemma LightBits(rows: seq<bv8>, row: Row, mask: bv8, i: Row, b: bv8)
    requires |rows| == KBD_ROWS
    ensures Has(Light(rows, row, mask)[i], b) <==> Has(rows[i], b) || (row == i && Has(mask, b))
  {
    if row == i {
      HasOr(rows[i], mask, b);
    }
  }

  /** The rows lit by the held modifiers, or-ed in the order they were pressed. */
  function MetaRows(km: Keymap, metas: seq<string>): (r: seq<bv8>)
    requires forall k :: k in metas ==> k in km
    ensures |r| == KBD_ROWS
  {
    if |metas| == 0 then CLEAR_ROWS
    else
      var entry := km[metas[|metas| - 1]];
      Light(MetaRows(km, metas[..|metas| - 1]), entry.row, entry.mask)
  }

  /** True when a bit `b` of row `i` is lit by the held key `key`, counting its shift. */
  predicate KeyLights(km: Keymap, key: Option<string>, i: Row, b: bv8)
    requires key.Some? ==> key.value in km
  {
    && key.Some?
    && var entry := km[key.value];
    || (entry.row == i && Has(entry.mask, b))
    || (entry.needsShift && i == LEFT_SHIFT_ROW && Has(LEFT_SHIFT_MASK, b))
  }

  /** The whole bitmap: held modifiers, then the held key and, if it needs it, left shift. */
  function RowsFor(km: Keymap, metas: seq<string>, key: Option<string>): (r: seq<bv8>)
    requires forall k :: k in metas ==> k in km
    requires key.Some? ==> key.value in km
    ensures |r| == KBD_ROWS
  {
    var base := MetaRows(km, metas);
    if key.None? then base
    else
      var entry := km[key.value];
      var lit := Light(base, entry.row, entry.mask);
      if entry.needsShift then Light(lit, LEFT_SHIFT_ROW, LEFT_SHIFT_MASK) else lit
  }

  /** A bit of a row is lit by the modifiers exactly when a held modifier sits there with that bit. */
  lemma {:induction false} MetaRowsBits(km: Keymap, metas: seq<string>, i: Row, b: bv8)
    requires forall k :: k in metas ==> k in km
    ensures Has(MetaRows(km, metas)[i], b) <==>
      exists k :: k in metas && km[k].row == i && Has(km[k].mask, b)
    decreases |metas|
  {
    if |metas| == 0 {
      assert !Has(0, b);
    } else {
      var init, last := metas[..|metas| - 1], metas[|metas| - 1];
      assert metas == init + [last];
      MetaRowsBits(km, init, i, b);
      var entry := km[last];
      LightBits(MetaRows(km, init), entry.row, entry.mask, i, b);
      if Has(MetaRows(km, metas)[i], b) && !Has(MetaRows(km, init)[i], b) {
        assert last in metas && km[last].row == i && Has(km[last].mask, b);
      }
    }
  }

  /**
   * After a rebuild, a bit of a row is lit exactly when a held modifier sits
   * there, the held key sits there, or the held key needs shift and the bit
   * is the left shift key's.
   */
  lemma RowsForBits(km: Keymap, metas: seq<string>, key: Option<string>, i: Row, b: bv8)
    requires forall k :: k in metas ==> k in km
    requires key.Some? ==> key.value in km
    ensures Has(RowsFor(km, metas, key)[i], b) <==>
      || (exists k :: k in metas && km[k].row == i && Has(km[k].mask, b))
      || KeyLights(km, key, i, b)
  {
    MetaRowsBits(km, metas, i, b);
    if key.Some? {
      var entry := km[key.value];
      var base := MetaRows(km, metas);
      var lit := Light(base, entry.row, entry.mask);
      LightBits(base, entry.row, entry.mask, i, b);
      LightBits(lit, LEFT_SHIFT_ROW, LEFT_SHIFT_MASK, i, b);
    }
  }

  /**
   * The bitmap depends only on which modifiers are held, not on the order in
   * which they were pressed.
   */
  lemma MetaOrderIrrelevant(km: Keymap, metas: seq<string>, metas': seq<string>, key: Option<string>)
    requires forall k :: k in metas ==> k in km
    requires forall k :: k in metas <==> k in metas'
    requires key.Some? ==> key.value in km
    ensures RowsFor(km, metas, key) == RowsFor(km, metas', key)
  {
    var r, r' := RowsFor(km, metas, key), RowsFor(km, metas', key);
    forall i: Row
      ensures r[i] == r'[i]
    {
      forall j: Row
        ensures Has(r[i], Bit(j)) == Has(r'[i], Bit(j))
      {
        RowsForBits(km, metas, key, i, Bit(j));
        RowsForBits(km, metas', key, i, Bit(j));
      }
      SameBitsEqual(r[i], r'[i]);
    }
  }

  /** No key name occurs twice. */
  ghost predicate Distinct(s: seq<string>)
  {
    forall i, j :: 0 <= i < j < |s| ==> s[i] != s[j]
  }

  /** `Set.prototype.add`: appends a name that is not yet present. */
  function Added(s: seq<string>, k: string): (r: seq<string>)
    ensures Distinct(s) ==> Distinct(r)
    ensures forall x :: x in r <==> x in s || x == k
  {
    if k in s then s else s + [k]
  }

  /** `Set.prototype.delete`: drops a name, keeping the others in order. */
  function Removed(s: seq<string>, k: string): (r: seq<string>)
    ensures forall x :: x in r <==> x in s && x != k
    decreases |s|
  {
    if |s| == 0 then []
    else if s[0] == k then Removed(s[1..], k)
    else [s[0]] + Removed(s[1..], k)
  }

  /** Deleting from a duplicate-free sequence leaves it duplicate-free. */
  lemma {:induction false} RemovedDistinct(s: seq<string>, k: string)
    requires Distinct(s)
    ensures Distinct(Removed(s, k))
    decreases |s|
  {
    if |s| > 0 {
      assert Distinct(s[1..]);
      RemovedDistinct(s[1..], k);
      if s[0] != k {
        var rest := Removed(s[1..], k);
        assert s[0] !in s[1..];
        assert s[0] !in rest;
        assert Removed(s, k) == [s[0]] + rest;
      }
    }
  }

  /** Caps lock is a modifier of the keymap. */
  lemma CapsLockIsMeta()
    ensures "CapsLock" in KEYMAP && KEYMAP["CapsLock"].isMeta
  {
  }

  /**
   * A rebuild with only caps lock held lights bit 0x01 of row 0, so the clear
   * rows the constructor starts with are not the rebuild of its held set.
   */
  lemma InitialRowsLagCapsLock()
    ensures RowsFor(KEYMAP, ["CapsLock"], None) == CLEAR_ROWS[0 := 0x01]
    ensures RowsFor(KEYMAP, ["CapsLock"], None) != CLEAR_ROWS
  {
    CapsLockIsMeta();
    assert ["CapsLock"][..0] == [];
    assert RowsFor(KEYMAP, ["CapsLock"], None)[0] == 0x01;
  }

  class Keyboard {
    /** The table key events are looked up in: always `KEYMAP`. */
    const keymap: Keymap
    /** Held modifier keys, in the order they were pressed (a JS `Set`). */
    var downMeta: seq<string>
    /** The held ordinary key, if any. */
    var downKey: Option<string>
    var rows: seq<bv8>
    var rowMask: bv8

    /** Every held name is in the keymap, with the kind the event handler files it under. */
    ghost predicate Valid()
      reads this
    {
      && |rows| == KBD_ROWS
      && Distinct(downMeta)
      && (forall k :: k in downMeta ==> k in keymap && keymap[k].isMeta)
      && (downKey.Some? ==> downKey.value in keymap && !keymap[downKey.value].isMeta)
    }

    /**
     * Caps lock starts out held, but the rows stay clear until the first
     * mapped key event rebuilds them.
     */
    constructor ()
      ensures Valid() && keymap == KEYMAP
      ensures downMeta == ["CapsLock"] && downKey == None
      ensures rows == CLEAR_ROWS && rowMask == 0
    {
      keymap := KEYMAP;
      downMeta := ["CapsLock"];
      downKey := None;
      rows := CLEAR_ROWS;
      rowMask := 0;
      CapsLockIsMeta();
    }

    /** Selects the rows the next read ORs together; nothing else changes. */
    method WriteByte(value: bv8)
      modifies this
      ensures rowMask == value
      ensures downMeta == old(downMeta) && downKey == old(downKey) && rows == old(rows)
    {
      rowMask := value;
    }

    /** The OR of the rows whose bit is set in the row mask. */
    method ReadByte() returns (value: bv8)
      requires Valid()
      ensures value == Selected(rows, rowMask, KBD_ROWS)
    {
      value := 0;
      for i := 0 to KBD_ROWS
        invariant value == Selected(rows, rowMask, i)
      {
        if rowMask & Bit(i) != 0 {
          value := value | rows[i];
        }
      }
    }

    /**
     * A key going down (`isDown`) or up. Names not in the keymap are
     * ignored. A modifier joins or leaves the held set; an ordinary key
     * going down replaces the held key, and going up releases it only if it
     * is the held one. Every mapped event rebuilds the rows.
     */
    method HandleKeyboardEvent(key: string, isDown: bool)
      requires Valid()
      modifies this
      ensures Valid()
      ensures rowMask == old(rowMask)
      ensures key !in keymap ==> downMeta == old(downMeta) && downKey == old(downKey) && rows == old(rows)
      ensures key in keymap ==> rows == RowsFor(keymap, downMeta, downKey)
      ensures key in keymap && keymap[key].isMeta ==>
        downKey == old(downKey) &&
        downMeta == if isDown then Added(old(downMeta), key) else Removed(old(downMeta), key)
      ensures key in keymap && !keymap[key].isMeta ==>
        downMeta == old(downMeta) &&
        downKey == if isDown then Some(key) else if old(downKey) == Some(key) then None else old(downKey)
    {
      if key !in keymap {
        return;
      }
      var entry := keymap[key];

      if isDown {
        if entry.isMeta {
          downMeta := Added(downMeta, key);
        } else {
          downKey := Some(key);
        }
      } else {
        if entry.isMeta {
          RemovedDistinct(downMeta, key);
          downMeta := Removed(downMeta, key);
        } else if downKey == Some(key) {
          downKey := None;
        }
      }

      RebuildRows();
    }

    /** Clears the rows, lights each held modifier in turn, then the held key and its shift. */
    method RebuildRows()
      requires Valid()
      modifies this
      ensures Valid()
      ensures rows == RowsFor(keymap, downMeta, downKey)
      ensures downMeta == old(downMeta) && downKey == old(downKey) && rowMask == old(rowMask)
    {
      var metas := downMeta;
      var r := CLEAR_ROWS;

      for j := 0 to |metas|
        invariant r == MetaRows(keymap, metas[..j])
      {
        assert metas[..j + 1][..j] == metas[..j];
        var meta := keymap[metas[j]];
        r := Light(r, meta.row, meta.mask);
      }
      assert metas[..|metas|] == metas;

      if downKey.Some? {
        var entry := keymap[downKey.value];
        r := Light(r, entry.row, entry.mask);
        if entry.needsShift {
          r := Light(r, LEFT_SHIFT_ROW, LEFT_SHIFT_MASK);
        }
      }
      rows := r;
    }
  }
}
