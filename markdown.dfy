/** Markdown table lines as the three report writers emit them: `"| " + " | ".join(cells) + " |"`.
    A report is returned as its list of lines; the file holds each line followed by "\n". */
module Markdown {
  import opened Strings

  /** One table line. */
  function Row(cells: seq<string>): string {
    "| " + Join(cells, " | ") + " |"
  }

  /** How a record key is shown as a column or row name: `key.replace('_', ' ').title()`. */
  function HeaderName(key: string): string {
    Title(ReplaceChar(key, '_', ' '))
  }

  /** Character by character, a key's shown name has a space for each `_`, an upper-case letter
      where a letter opens a word (at the start, or after anything but a letter), a lower-case
      letter inside a word, and every other character unchanged. */
  lemma HeaderNameAt(key: string, i: nat)
    requires i < |key|
    ensures |HeaderName(key)| == |key|
    ensures HeaderName(key)[i] ==
              if key[i] == '_' then ' '
              else if !IsAsciiLetter(key[i]) then key[i]
              else if i > 0 && IsAsciiLetter(key[i - 1]) then LowerChar(key[i])
              else UpperChar(key[i])
  {
    var spaced := ReplaceChar(key, '_', ' ');
    TitleAt(spaced, i);
  }

  function Pad(c: string): string {
    " " + c + " "
  }

  function Padded(cells: seq<string>): (r: seq<string>)
    ensures |r| == |cells| && forall k | 0 <= k < |cells| :: r[k] == Pad(cells[k])
  {
    seq(|cells|, k requires 0 <= k < |cells| => Pad(cells[k]))
  }

  /** Reading a table line back: the pieces between its `|` bars, less one space on either side. */
  function ParseRow(line: string): seq<string> {
    var pieces := Split(line, '|');
    if |pieces| < 3 then [] else seq(|pieces| - 2, k requires 0 <= k < |pieces| - 2 => Unpad(pieces[k + 1]))
  }

  function Unpad(p: string): string {
    if |p| >= 2 then p[1..|p| - 1] else p
  }

  lemma {:induction false} PaddedJoin(cells: seq<string>)
    requires |cells| >= 1
    ensures " " + Join(cells, " | ") + " |" == Join(Padded(cells) + [""], "|")
    decreases |cells|
  {
    var ps := Padded(cells) + [""];
    if |cells| == 1 {
      assert ps == [Pad(cells[0]), ""];
    } else {
      var rest := cells[1..];
      PaddedJoin(rest);
      assert ps == [Pad(cells[0])] + (Padded(rest) + [""]);
      assert ps[1..] == Padded(rest) + [""];
      calc {
        Join(ps, "|");
        Pad(cells[0]) + "|" + Join(Padded(rest) + [""], "|");
        Pad(cells[0]) + "|" + (" " + Join(rest, " | ") + " |");
        " " + (cells[0] + " | " + Join(rest, " | ")) + " |";
        " " + Join(cells, " | ") + " |";
      }
    }
  }

  /** A table line is the padded cells with a bar before, between and after them. */
  lemma RowAsBars(cells: seq<string>)
    requires |cells| >= 1
    ensures Row(cells) == Join([""] + Padded(cells) + [""], "|")
  {
    PaddedJoin(cells);
    var ps := [""] + Padded(cells) + [""];
    assert ps == [""] + (Padded(cells) + [""]);
    assert ps[1..] == Padded(cells) + [""];
  }

  /** Reading a rendered line back yields exactly its cells, provided no cell holds a `|`:
      a row rendered from n cells is a table row of n cells. */
  lemma RowRoundTrip(cells: seq<string>)
    requires |cells| >= 1
    requires forall k | 0 <= k < |cells| :: '|' !in cells[k]
    ensures ParseRow(Row(cells)) == cells
  {
    RowAsBars(cells);
    var ps := [""] + Padded(cells) + [""];
    forall k | 0 <= k < |ps|
      ensures '|' !in ps[k]
    {
      if 1 <= k <= |cells| {
        assert ps[k] == " " + cells[k - 1] + " ";
      }
    }
    SplitJoin(ps, '|');
    var back := ParseRow(Row(cells));
    assert |back| == |cells|;
    forall k | 0 <= k < |cells|
      ensures back[k] == cells[k]
    {
      var p := ps[k + 1];
      assert p == " " + cells[k] + " ";
      assert p[1..|p| - 1] == cells[k];
      assert back[k] == Unpad(p);
    }
  }
}
