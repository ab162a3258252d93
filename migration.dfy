/**
 * The statement splitter of the migration script: drop blank and comment lines of the
 * SQL text, join the rest with newlines, cut at every `;`, and emit each non-blank
 * stripped piece followed by `;`.
 */
module Migration {
  import opened Sequences

  /** Python's `str.isspace` for one character. */
  predicate IsSpace(c: char)
  {
    c == ' ' || ('\t' <= c <= '\r') || ('\U{1c}' <= c <= '\U{1f}') || c == '\U{85}' || c == '\U{a0}' ||
    c == '\U{1680}' || ('\U{2000}' <= c <= '\U{200a}') || c == '\U{2028}' || c == '\U{2029}' ||
    c == '\U{202f}' || c == '\U{205f}' || c == '\U{3000}'
  }

  /** The length of the leading run of whitespace. */
  function Lead(s: string): (n: nat)
    ensures n <= |s|
    ensures forall k :: 0 <= k < n ==> IsSpace(s[k])
    ensures n < |s| ==> !IsSpace(s[n])
  {
    if s == [] || !IsSpace(s[0]) then 0 else 1 + Lead(s[1..])
  }

  /** The length of the trailing run of whitespace. */
  function Trail(s: string): (n: nat)
    ensures n <= |s|
    ensures forall k :: |s| - n <= k < |s| ==> IsSpace(s[k])
    ensures n < |s| ==> !IsSpace(s[|s| - 1 - n])
  {
    if s == [] || !IsSpace(s[|s| - 1]) then 0 else 1 + Trail(s[..|s| - 1])
  }

  /** `str.strip()`: the piece of `s` between its leading and its trailing whitespace. */
  function Strip(s: string): (r: string)
    ensures r == [] <==> forall k :: 0 <= k < |s| ==> IsSpace(s[k])
    ensures r != [] ==> !IsSpace(r[0]) && !IsSpace(r[|r| - 1])
    ensures Lead(s) + |r| <= |s| && r == s[Lead(s)..Lead(s) + |r|]
    ensures forall k :: 0 <= k < |s| && (k < Lead(s) || Lead(s) + |r| <= k) ==> IsSpace(s[k])
  {
    if Lead(s) == |s| then []
    else
      assert |s| - Trail(s) > Lead(s);
      s[Lead(s)..|s| - Trail(s)]
  }

  // ---------------------------------------------------------------------------
  // str.split(sep) and sep.join(pieces)
  // ---------------------------------------------------------------------------

  /** `s.split(c)`: at least one piece, none holding `c`. */
  function Split(s: string, c: char): (r: seq<string>)
    ensures |r| >= 1
    ensures forall i :: 0 <= i < |r| ==> c !in r[i]
  {
    if s == [] then [[]]
    else
      var rest := Split(s[1..], c);
      if s[0] == c then [[]] + rest else [[s[0]] + rest[0]] + rest[1..]
  }

  function Join(pieces: seq<string>, c: char): string
  {
    if pieces == [] then []
    else if |pieces| == 1 then pieces[0]
    else pieces[0] + [c] + Join(pieces[1..], c)
  }

  /** Joining the pieces with the separator gives back the text. */
  lemma {:induction false} JoinSplit(s: string, c: char)
    ensures Join(Split(s, c), c) == s
  {
    if s != [] {
      var rest := Split(s[1..], c);
      JoinSplit(s[1..], c);
      if s[0] == c {
        assert Join([[]] + rest, c) == [] + [c] + Join(rest, c);
      } else if |rest| == 1 {
        assert Split(s, c) == [[s[0]] + rest[0]];
      } else {
        assert Split(s, c)[1..] == rest[1..];
        assert Join(rest, c) == rest[0] + [c] + Join(rest[1..], c);
      }
    }
  }

  /** A text without the separator is a single piece. */
  lemma {:induction false} SplitWithoutSeparator(s: string, c: char)
    requires c !in s
    ensures Split(s, c) == [s]
  {
    if s != [] {
      SplitWithoutSeparator(s[1..], c);
      assert [s[0]] + s[1..] == s;
    }
  }

  /** The first piece ends at the first separator. */
  lemma {:induction false} SplitAtFirstSeparator(a: string, b: string, c: char)
    requires c !in a
    ensures Split(a + [c] + b, c) == [a] + Split(b, c)
  {
    if a == [] {
      assert (a + [c] + b)[1..] == b;
    } else {
      assert (a + [c] + b)[1..] == a[1..] + [c] + b;
      SplitAtFirstSeparator(a[1..], b, c);
      assert [a[0]] + a[1..] == a;
    }
  }

  // ---------------------------------------------------------------------------
  // Comment-line filter
  // ---------------------------------------------------------------------------

  predicate StartsWithComment(t: string) { |t| >= 2 && t[0] == '-' && t[1] == '-' }

  /** A line is kept when its stripped form is non-empty and does not start with `--`. */
  predicate Keep(line: string)
  {
    Strip(line) != [] && !StartsWithComment(Strip(line))
  }

  /**
   * The kept lines: each line that passes, verbatim, as often as it occurs, at its
   * position's turn; no other line.
   */
  function KeptLines(lines: seq<string>): (r: seq<string>)
    ensures |r| <= |lines|
    ensures forall l :: l in r <==> l in lines && Keep(l)
    ensures forall l :: multiset(r)[l] == if Keep(l) then multiset(lines)[l] else 0
    ensures FilteredInOrder(Keep, lines, r)
  {
    FilterMembers(Keep, lines);
    FilterMultiset(Keep, lines);
    FilterInOrder(Keep, lines);
    Filter(Keep, lines)
  }

  /** The `for line in lines` loop building `cleaned_lines`. */
  method CleanLines(lines: seq<string>) returns (cleaned: seq<string>)
    ensures cleaned == KeptLines(lines)
  {
    cleaned := [];
    for i := 0 to |lines|
      invariant cleaned == KeptLines(lines[..i])
    {
      var stripped := Strip(lines[i]);
      if stripped != [] && !StartsWithComment(stripped) {
        cleaned := cleaned + [lines[i]];
      }
      assert lines[..i + 1][..i] == lines[..i];
    }
    assert lines[..|lines|] == lines;
  }

  /** A line that starts with code is kept whole, a `--` later on the line included. */
  lemma CodeLineKeptWhole(line: string)
    requires |line| > 0 && !IsSpace(line[0]) && line[0] != '-'
    ensures Keep(line)
  {
    assert Strip(line)[0] == line[0];
  }

  // ---------------------------------------------------------------------------
  // Statements
  // ---------------------------------------------------------------------------

  /** A statement as emitted: a non-blank, stripped text without `;`, then `;`. */
  predicate WellFormedStatement(st: string)
  {
    |st| >= 2 && st[|st| - 1] == ';' && ';' !in st[..|st| - 1] &&
    !IsSpace(st[0]) && !IsSpace(st[|st| - 2])
  }

  /** The filter of the comprehension: the piece is not blank. */
  predicate NonBlank(piece: string)
  {
    Strip(piece) != []
  }

  /** The element of the comprehension: the stripped piece, then `;`. */
  function StatementOf(piece: string): string
  {
    Strip(piece) + ";"
  }

  /**
   * `[s.strip() + ';' for s in pieces if s.strip()]`: one well-formed statement per
   * non-blank piece, in the order of the pieces.
   */
  function StatementsOf(pieces: seq<string>): (r: seq<string>)
    requires forall i :: 0 <= i < |pieces| ==> ';' !in pieces[i]
    ensures |r| <= |pieces|
    ensures forall i :: 0 <= i < |r| ==> WellFormedStatement(r[i])
    ensures MappedInOrder(NonBlank, StatementOf, pieces, r)
  {
    StatementsWellFormed(pieces);
    FilterMapInOrder(NonBlank, StatementOf, pieces);
    FilterMap(NonBlank, StatementOf, pieces)
  }

  /** Every non-blank piece without `;` yields a well-formed statement. */
  lemma StatementsWellFormed(pieces: seq<string>)
    requires forall i :: 0 <= i < |pieces| ==> ';' !in pieces[i]
    ensures var r := FilterMap(NonBlank, StatementOf, pieces);
      forall k :: 0 <= k < |r| ==> WellFormedStatement(r[k])
  {
    var kept := Filter(NonBlank, pieces);
    FilterMembers(NonBlank, pieces);
    forall k | 0 <= k < |kept| ensures WellFormedStatement(StatementOf(kept[k])) {
      assert kept[k] in kept;
      PieceStatement(kept[k]);
    }
  }

  /** The statements are exactly the stripped non-empty pieces, each with `;` appended. */
  lemma StatementsOfMembers(pieces: seq<string>)
    requires forall i :: 0 <= i < |pieces| ==> ';' !in pieces[i]
    ensures forall st :: st in StatementsOf(pieces) <==>
      exists p :: p in pieces && Strip(p) != [] && st == Strip(p) + ";"
  {
    FilterMapMembers(NonBlank, StatementOf, pieces);
  }

  /** A non-blank piece without `;` gives a well-formed statement. */
  lemma PieceStatement(p: string)
    requires ';' !in p && Strip(p) != []
    ensures WellFormedStatement(Strip(p) + ";")
  {
    var t := Strip(p);
    assert (t + ";")[..|t|] == t;
    assert ';' !in t by {
      assert forall k :: 0 <= k < |t| ==> t[k] == p[Lead(p) + k];
    }
  }

  function Statements(fullSql: string): seq<string>
  {
    StatementsOf(Split(fullSql, ';'))
  }

  /** The whole preparation of the script, from the file's text to the statements it lists. */
  method PrepareStatements(sql: string) returns (statements: seq<string>)
    ensures statements == Statements(Join(KeptLines(Split(sql, '\n')), '\n'))
    ensures forall i :: 0 <= i < |statements| ==> WellFormedStatement(statements[i])
  {
    var lines := Split(sql, '\n');
    var cleaned := CleanLines(lines);
    var fullSql := Join(cleaned, '\n');
    statements := StatementsOf(Split(fullSql, ';'));
  }

  lemma StatementsOfCons(p: string, rest: seq<string>)
    requires ';' !in p && forall i :: 0 <= i < |rest| ==> ';' !in rest[i]
    ensures StatementsOf([p] + rest) == (if Strip(p) != [] then [Strip(p) + ";"] else []) + StatementsOf(rest)
  {
    FilterMapCons(NonBlank, StatementOf, p, rest);
  }

  /** Two non-blank pieces around one `;` give two statements, each stripped and closed. */
  lemma TwoPiecesTwoStatements(a: string, b: string)
    requires ';' !in a && ';' !in b && Strip(a) != [] && Strip(b) != []
    ensures Statements(a + [';'] + b) == [Strip(a) + ";", Strip(b) + ";"]
  {
    assert Split(a + [';'] + b, ';') == [a, b] by {
      SplitWithoutSeparator(b, ';');
      SplitAtFirstSeparator(a, b, ';');
      assert [a] + [b] == [a, b];
    }
    PairStatements(a, b);
  }

  /** The comprehension over two non-blank pieces. */
  lemma PairStatements(a: string, b: string)
    requires Strip(a) != [] && Strip(b) != []
    ensures FilterMap(NonBlank, StatementOf, [a, b]) == [StatementOf(a), StatementOf(b)]
  {
    var none: seq<string> := [];
    FilterMapCons(NonBlank, StatementOf, b, none);
    assert [b] + none == [b];
    assert FilterMap(NonBlank, StatementOf, none) == [];
    FilterMapCons(NonBlank, StatementOf, a, [b]);
    assert [a] + [b] == [a, b];
  }

  /**
   * Text after the last `;` of a line is a piece of its own: a `--` comment that follows
   * code on the same line escapes the comment-line filter and becomes a statement.
   */
  lemma TrailingCommentBecomesStatement(code: string, comment: string)
    requires ';' !in code && ';' !in comment && Strip(code) != [] && StartsWithComment(Strip(comment))
    ensures var st := Statements(code + [';'] + comment);
      |st| == 2 && st[1] == Strip(comment) + ";" && StartsWithComment(st[1])
  {
    TwoPiecesTwoStatements(code, comment);
  }
}
