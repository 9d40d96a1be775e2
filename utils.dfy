/** The text helper of util/utils.py. */
module Utils {

  /** Number of spaces one indentation level stands for. */
  const IndentSize: nat := 8

  /** `n` copies of `s` (Python's `s * n`, which is "" for `n <= 0`). */
  function Repeat(s: string, n: int): (r: string)
    decreases if n > 0 then n else 0
  {
    if n <= 0 then "" else s + Repeat(s, n - 1)
  }

  /** `text` preceded by `level` indentation steps of `IndentSize` spaces each. */
  function Indent(text: string, level: int): (r: string)
  {
    Repeat(Repeat(" ", IndentSize), level) + text
  }

  lemma {:induction false} RepeatSpaces(n: int)
    ensures |Repeat(" ", n)| == (if n > 0 then n else 0)
    ensures forall k :: 0 <= k < |Repeat(" ", n)| ==> Repeat(" ", n)[k] == ' '
    decreases if n > 0 then n else 0
  {
    if n > 0 { RepeatSpaces(n - 1); }
  }

  lemma {:induction false} RepeatBlocks(n: int)
    ensures |Repeat(Repeat(" ", IndentSize), n)| == IndentSize * (if n > 0 then n else 0)
    ensures forall k :: 0 <= k < |Repeat(Repeat(" ", IndentSize), n)| ==>
              Repeat(Repeat(" ", IndentSize), n)[k] == ' '
    decreases if n > 0 then n else 0
  {
    RepeatSpaces(IndentSize);
    if n > 0 {
      RepeatBlocks(n - 1);
      var b := Repeat(" ", IndentSize);
      var rest := Repeat(b, n - 1);
      assert Repeat(b, n) == b + rest;
      forall k | 0 <= k < |b + rest| ensures (b + rest)[k] == ' ' {
        if k < |b| { assert (b + rest)[k] == b[k]; } else { assert (b + rest)[k] == rest[k - |b|]; }
      }
    }
  }

  /** For a non-negative level the result is `8 * level` spaces followed by `text`; a negative
      level gives an empty prefix, so level 0 returns `text` itself. */
  lemma IndentShape(text: string, level: int)
    ensures |Indent(text, level)| == IndentSize * (if level > 0 then level else 0) + |text|
    ensures Indent(text, level)[|Indent(text, level)| - |text|..] == text
    ensures forall k :: 0 <= k < |Indent(text, level)| - |text| ==> Indent(text, level)[k] == ' '
    ensures level <= 0 ==> Indent(text, level) == text
  {
    RepeatBlocks(level);
    var p := Repeat(Repeat(" ", IndentSize), level);
    assert Indent(text, level) == p + text;
    assert (p + text)[|p|..] == text;
    forall k | 0 <= k < |p| ensures (p + text)[k] == ' ' {
      assert (p + text)[k] == p[k];
    }
  }
}
