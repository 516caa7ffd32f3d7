/** Key patterns: `*` stands for any run of characters, `?` for any one, everything else for itself. */
module Glob {

  /** What one pattern character may stand for. */
  predicate Stands(c: char, part: string) {
    if c == '*' then true else if c == '?' then |part| == 1 else part == [c]
  }

  function Joined(parts: seq<string>): string {
    if parts == [] then [] else Joined(parts[..|parts| - 1]) + parts[|parts| - 1]
  }

  /** A cutting of the text into one part per pattern character. */
  ghost predicate Cuts(pattern: string, text: string, parts: seq<string>) {
    |parts| == |pattern| && Joined(parts) == text && forall i :: 0 <= i < |parts| ==> Stands(pattern[i], parts[i])
  }

  /** The declarative meaning of a pattern. */
  ghost predicate Matches(pattern: string, text: string) {
    exists parts :: Cuts(pattern, text, parts)
  }

  /** The recurrence of the table. */
  function Cell(pattern: string, text: string): bool
    decreases |pattern| + |text|
  {
    if pattern == [] then text == []
    else
      var init, c := pattern[..|pattern| - 1], pattern[|pattern| - 1];
      if c == '*' then Cell(init, text) || (text != [] && Cell(pattern, text[..|text| - 1]))
      else text != [] && (c == '?' || c == text[|text| - 1]) && Cell(init, text[..|text| - 1])
  }

  lemma {:induction false} Appended(pattern: string, c: char, text: string, part: string, parts: seq<string>)
    requires Cuts(pattern, text, parts) && Stands(c, part)
    ensures Cuts(pattern + [c], text + part, parts + [part])
  {
    assert (parts + [part])[..|parts|] == parts;
  }

  /** The part under a final `*` can take one more character. */
  lemma {:induction false} StarTakesOneMore(pattern: string, text: string, parts: seq<string>, x: char)
    requires pattern != [] && pattern[|pattern| - 1] == '*' && Cuts(pattern, text, parts)
    ensures Matches(pattern, text + [x])
  {
    var n := |pattern| - 1;
    var init, shorter, last := pattern[..n], parts[..n], parts[n];
    assert Cuts(init, Joined(shorter), shorter) && pattern == init + ['*'];
    Appended(init, '*', Joined(shorter), last + [x], shorter);
    assert Joined(shorter) + (last + [x]) == text + [x];
  }

  lemma {:induction false} CellMatches(pattern: string, text: string)
    requires Cell(pattern, text)
    ensures Matches(pattern, text)
    decreases |pattern| + |text|
  {
    if pattern == [] {
      assert Cuts(pattern, text, []);
    } else {
      var n, m := |pattern| - 1, |text| - 1;
      var init, c := pattern[..n], pattern[n];
      assert pattern == init + [c];
      if c == '*' && Cell(init, text) {
        CellMatches(init, text);
        var parts :| Cuts(init, text, parts);
        assert text + [] == text;
        Appended(init, c, text, [], parts);
      } else if c == '*' {
        CellMatches(pattern, text[..m]);
        var parts :| Cuts(pattern, text[..m], parts);
        assert text == text[..m] + [text[m]];
        StarTakesOneMore(pattern, text[..m], parts, text[m]);
      } else {
        CellMatches(init, text[..m]);
        var parts :| Cuts(init, text[..m], parts);
        assert text == text[..m] + [text[m]];
        Appended(init, c, text[..m], [text[m]], parts);
      }
    }
  }

  lemma {:induction false} MatchesCell(pattern: string, text: string, parts: seq<string>)
    requires Cuts(pattern, text, parts)
    ensures Cell(pattern, text)
    decreases |pattern| + |text|
  {
    if pattern != [] {
      var n, m := |pattern| - 1, |text| - 1;
      var init, shorter, last := pattern[..n], parts[..n], parts[n];
      assert Stands(pattern[n], last);
      assert Cuts(init, Joined(shorter), shorter);
      if last == [] {
        assert Joined(shorter) == text;
        MatchesCell(init, text, shorter);
      } else {
        var rest := last[..|last| - 1];
        assert text[..m] == Joined(shorter) + rest && text[m] == last[|last| - 1];
        if pattern[n] == '*' {
          assert pattern == init + [pattern[n]];
          Appended(init, pattern[n], Joined(shorter), rest, shorter);
          MatchesCell(pattern, text[..m], shorter + [rest]);
        } else {
          assert Joined(shorter) + [] == Joined(shorter);
          MatchesCell(init, text[..m], shorter);
        }
      }
    }
  }

  /** `wildcard_matches`: the table computes the declarative meaning, for every pattern and text. */
  method WildcardMatches(pattern: string, text: string) returns (matched: bool)
    ensures matched == Matches(pattern, text)
  {
    var rows, cols := |pattern| + 1, |text| + 1;
    var dp := new bool[rows, cols]((_, _) => false);
    dp[0, 0] := true;
    var row := 1;
    while row < rows
      invariant 1 <= row <= rows
      invariant forall r :: 0 <= r < row ==> dp[r, 0] == Cell(pattern[..r], [])
      invariant forall r, c :: 0 <= r < rows && 0 <= c < cols && (c > 0 || r >= row) ==> !dp[r, c]
    {
      assert pattern[..row][..row - 1] == pattern[..row - 1];
      if pattern[row - 1] == '*' {
        dp[row, 0] := dp[row - 1, 0];
      }
      row := row + 1;
    }
    FillTable(dp, pattern, text);
    assert pattern[..|pattern|] == pattern && text[..|text|] == text;
    matched := dp[|pattern|, |text|];
    if matched {
      CellMatches(pattern, text);
    } else {
      forall parts ensures !Cuts(pattern, text, parts) {
        if Cuts(pattern, text, parts) {
          MatchesCell(pattern, text, parts);
        }
      }
    }
  }

  /** The nested loops. */
  method FillTable(dp: array2<bool>, pattern: string, text: string)
    requires dp.Length0 == |pattern| + 1 && dp.Length1 == |text| + 1
    requires forall r :: 0 <= r <= |pattern| ==> dp[r, 0] == Cell(pattern[..r], [])
    requires forall c :: 0 < c <= |text| ==> !dp[0, c]
    modifies dp
    ensures dp[|pattern|, |text|] == Cell(pattern[..|pattern|], text[..|text|])
  {
    assert text[..0] == [];
    var row := 1;
    while row <= |pattern|
      invariant 1 <= row <= |pattern| + 1
      invariant forall r :: 0 <= r <= |pattern| ==> dp[r, 0] == Cell(pattern[..r], [])
      invariant forall c :: 0 <= c <= |text| ==> dp[row - 1, c] == Cell(pattern[..row - 1], text[..c])
    {
      var col := 1;
      while col <= |text|
        invariant 1 <= col <= |text| + 1
        invariant forall r :: 0 <= r <= |pattern| ==> dp[r, 0] == Cell(pattern[..r], [])
        invariant forall c :: 0 <= c <= |text| ==> dp[row - 1, c] == Cell(pattern[..row - 1], text[..c])
        invariant forall c :: 0 <= c < col ==> dp[row, c] == Cell(pattern[..row], text[..c])
      {
        assert pattern[..row][..row - 1] == pattern[..row - 1] && text[..col][..col - 1] == text[..col - 1];
        var p := pattern[row - 1];
        dp[row, col] :=
          if p == '*' then dp[row - 1, col] || dp[row, col - 1]
          else if p == '?' then dp[row - 1, col - 1]
          else dp[row - 1, col - 1] && p == text[col - 1];
        col := col + 1;
      }
      row := row + 1;
    }
  }
}
