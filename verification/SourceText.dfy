/** Lines and columns (src/support/source.c:18-26, 66-76, 97-112): the table of line starts and
    the binary search over it, against counting newlines. */
module SourceText {
  /** The line an offset is on, by counting the newlines before it. */
  function LineOf(text: string, o: nat): (l: nat)
    requires o <= |text|
    ensures l >= 1
  {
    if o == 0 then 1 else LineOf(text, o - 1) + if text[o - 1] == '\n' then 1 else 0
  }

  /** Where that line starts. */
  function LineStart(text: string, o: nat): (s: nat)
    requires o <= |text|
    ensures s <= o
  {
    if o == 0 || text[o - 1] == '\n' then o else LineStart(text, o - 1)
  }

  function ColumnOf(text: string, o: nat): (c: nat)
    requires o <= |text|
    ensures c >= 1
  {
    o - LineStart(text, o) + 1
  }

  lemma {:induction false} LineGrows(text: string, a: nat, b: nat)
    requires a <= b <= |text|
    ensures LineOf(text, a) <= LineOf(text, b)
    decreases b
  {
    if a < b {
      LineGrows(text, a, b - 1);
    }
  }

  /** Two offsets of one line have the same line start. */
  lemma {:induction false} SameLine(text: string, a: nat, b: nat)
    requires a <= b <= |text| && LineOf(text, a) == LineOf(text, b)
    ensures LineStart(text, a) == LineStart(text, b)
    decreases b
  {
    if a < b {
      LineGrows(text, a, b - 1);
      SameLine(text, a, b - 1);
    }
  }

  /** Columns advance with the offset as long as no newline is passed. */
  lemma {:induction false} SameRow(text: string, a: nat, b: nat)
    requires a <= b <= |text| && forall k :: a <= k < b ==> text[k] != '\n'
    ensures LineOf(text, b) == LineOf(text, a) && ColumnOf(text, b) == ColumnOf(text, a) + (b - a)
    decreases b
  {
    if a < b {
      SameRow(text, a, b - 1);
    }
  }

  /** The starts of lines 1 to |t|. */
  ghost predicate StartsOf(text: string, t: seq<nat>) {
    forall k :: 0 <= k < |t| ==> t[k] <= |text| && LineOf(text, t[k]) == k + 1 && LineStart(text, t[k]) == t[k]
  }

  /** All of them. */
  ghost predicate LineTable(text: string, t: seq<nat>) {
    StartsOf(text, t) && |t| == LineOf(text, |text|)
  }

  lemma {:induction false} StartsIncrease(text: string, t: seq<nat>, i: nat, j: nat)
    requires StartsOf(text, t) && i < j < |t|
    ensures t[i] < t[j]
  {
    if t[i] >= t[j] {
      LineGrows(text, t[j], t[i]);
    }
  }

  /** An offset between two starts is on the first of the two lines. */
  lemma {:induction false} BetweenStarts(text: string, t: seq<nat>, low: nat, o: nat)
    requires LineTable(text, t) && low < |t| && t[low] <= o <= |text| && (low + 1 < |t| ==> o < t[low + 1])
    ensures LineOf(text, o) == low + 1 && LineStart(text, o) == t[low]
  {
    LineGrows(text, t[low], o);
    if low + 1 < |t| {
      LineGrows(text, o, t[low + 1] - 1);
      assert LineStart(text, t[low + 1]) == t[low + 1];
    } else {
      LineGrows(text, o, |text|);
    }
    SameLine(text, t[low], o);
  }

  method CountLines(text: string) returns (lines: nat)
    ensures lines == LineOf(text, |text|)
  {
    lines := 1;
    for i := 0 to |text|
      invariant lines == LineOf(text, i)
    {
      if text[i] == '\n' {
        lines := lines + 1;
      }
    }
  }

  method BuildLineTable(text: string) returns (offsets: array<nat>)
    ensures LineTable(text, offsets[..])
  {
    var count := CountLines(text);
    offsets := new nat[count](i => 0);
    var line := 1;
    for i := 0 to |text|
      invariant 1 <= line == LineOf(text, i) <= count
      invariant StartsOf(text, offsets[..line])
    {
      LineGrows(text, i + 1, |text|);
      if text[i] == '\n' && line < count {
        ghost var before := offsets[..line];
        offsets[line] := i + 1;
        assert offsets[..line + 1] == before + [i + 1];
        line := line + 1;
      }
    }
    assert offsets[..count] == offsets[..];
  }

  /** Behind the end of the text the column goes on counting on the last line. */
  method Position(ghost text: string, offsets: array<nat>, offset: nat) returns (line: nat, column: nat)
    requires LineTable(text, offsets[..])
    ensures offset <= |text| ==> line == LineOf(text, offset) && column == ColumnOf(text, offset)
    ensures offset > |text| ==> line == LineOf(text, |text|) && column == ColumnOf(text, |text|) + (offset - |text|)
  {
    var low, high := 0, offsets.Length;
    while low + 1 < high
      invariant low < high <= offsets.Length
      invariant offsets[low] <= offset && (high < offsets.Length ==> offset < offsets[high])
      decreases high - low
    {
      var mid := low + (high - low) / 2;
      if offsets[mid] <= offset {
        low := mid;
      } else {
        high := mid;
      }
    }
    BetweenStarts(text, offsets[..], low, if offset <= |text| then offset else |text|);
    return low + 1, offset - offsets[low] + 1;
  }
}
