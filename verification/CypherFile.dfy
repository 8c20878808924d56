/**
 Splitting a Cypher migration file into statements (ops/migrate_neo4j.py,
 `_split_statements`): at every semicolon followed by a line feed, leaving out
 the pieces that hold nothing but white space and comments.
 */
module CypherFile {
  import opened JsonText
  import opened PythonText

  predicate EndsInSemicolon(s: string) { s != "" && s[|s| - 1] == ';' }

  function Push(p: Pieces, c: char): Pieces {
    if c == '\n' && EndsInSemicolon(p.open) then Pieces(p.closed + [p.open[..|p.open| - 1]], "")
    else Pieces(p.closed, p.open + [c])
  }

  function CutPieces(s: string): Pieces {
    if s == "" then Pieces([], "") else Push(CutPieces(s[..|s| - 1]), s[|s| - 1])
  }

  /** `text.split(";\n")`. */
  function SplitText(s: string): seq<string> { CutPieces(s).closed + [CutPieces(s).open] }

  /** `//` to the end of the line, everywhere. */
  function WithoutComments(s: string): string
    decreases |s|
  {
    if s == "" then ""
    else if "//" <= s then WithoutComments(AfterLine(s[2..]))
    else [s[0]] + WithoutComments(s[1..])
  }

  /** From the first line feed on. */
  function AfterLine(s: string): (r: string)
    ensures |r| <= |s|
  {
    if s == "" || s[0] == '\n' then s else AfterLine(s[1..])
  }

  function StripLeft(s: string): string { if s != "" && IsSpace(s[0]) then StripLeft(s[1..]) else s }

  function StripRight(s: string): string { if s != "" && IsSpace(s[|s| - 1]) then StripRight(s[..|s| - 1]) else s }

  function Strip(s: string): string { StripRight(StripLeft(s)) }

  /** The statement a piece stands for, its semicolon put back; none for a piece without content. */
  function StatementOf(piece: string): Option<string> {
    if Strip(WithoutComments(piece)) == "" then None
    else Some(if EndsInSemicolon(StripRight(piece)) then Strip(piece) else Strip(piece) + ";")
  }

  function Statements(pieces: seq<string>): seq<string> {
    if pieces == [] then []
    else
      var front := Statements(pieces[..|pieces| - 1]);
      match StatementOf(pieces[|pieces| - 1]) case None => front case Some(s) => front + [s]
  }

  method SplitStatements(text: string) returns (statements: seq<string>)
    ensures statements == Statements(SplitText(text))
  {
    statements := [];
    var raw := SplitText(text);
    var i := 0;
    while i < |raw|
      invariant 0 <= i <= |raw|
      invariant statements == Statements(raw[..i])
    {
      var piece := raw[i];
      assert raw[..i + 1][..i] == raw[..i];
      i := i + 1;
      var stripped := Strip(WithoutComments(piece));
      if stripped == "" { continue; }
      if EndsInSemicolon(StripRight(piece)) {
        statements := statements + [Strip(piece)];
      } else {
        statements := statements + [Strip(piece) + ";"];
      }
    }
    assert raw[..i] == raw;
  }

  // ---------------------------------------------------------------- round trip

  /** A piece has no separator in it. */
  predicate Whole(piece: string) { forall i | 0 < i < |piece| :: !(piece[i - 1] == ';' && piece[i] == '\n') }

  /** A file of pieces, each closed by the separator. */
  function FileText(pieces: seq<string>): string {
    if pieces == [] then "" else FileText(pieces[..|pieces| - 1]) + pieces[|pieces| - 1] + ";\n"
  }

  lemma PushAppend(s: string, c: char)
    ensures CutPieces(s + [c]) == Push(CutPieces(s), c)
  {
    assert (s + [c])[..|s|] == s;
  }

  lemma {:induction false} CutAppendPiece(s: string, piece: string)
    requires CutPieces(s).open == "" && Whole(piece)
    ensures CutPieces(s + piece) == Pieces(CutPieces(s).closed, piece)
  {
    if piece == "" {
      assert s + piece == s;
    } else {
      var n := |piece| - 1;
      var front, c := piece[..n], piece[n];
      CutAppendPiece(s, front);
      PushAppend(s + front, c);
      assert s + piece == s + front + [c] && front + [c] == piece;
      assert n > 0 ==> front[n - 1] == piece[n - 1];
    }
  }

  lemma CutAppendClosed(s: string, piece: string)
    requires CutPieces(s).open == "" && Whole(piece)
    ensures CutPieces(s + piece + ";\n") == Pieces(CutPieces(s).closed + [piece], "")
  {
    CutAppendPiece(s, piece);
    var t := s + piece;
    PushAppend(t, ';');
    PushAppend(t + [';'], '\n');
    assert t + ";\n" == t + [';'] + ['\n'];
    assert (piece + [';'])[..|piece|] == piece;
  }

  lemma SplitAppend(front: seq<string>, last: string)
    requires CutPieces(FileText(front)) == Pieces(front, "") && Whole(last)
    ensures CutPieces(FileText(front + [last])) == Pieces(front + [last], "")
  {
    CutAppendClosed(FileText(front), last);
    assert (front + [last])[..|front|] == front;
  }

  lemma {:induction false} SplitOfFile(pieces: seq<string>)
    requires forall p | p in pieces :: Whole(p)
    ensures CutPieces(FileText(pieces)) == Pieces(pieces, "")
  {
    if pieces != [] {
      var front, last := pieces[..|pieces| - 1], pieces[|pieces| - 1];
      assert last in pieces && forall p | p in front :: p in pieces;
      SplitOfFile(front);
      SplitAppend(front, last);
      assert pieces == front + [last];
    }
  }

  /** Splitting a file gives back the statements of the pieces it was put together from. */
  lemma SplitRoundTrip(pieces: seq<string>)
    requires forall p | p in pieces :: Whole(p)
    ensures Statements(SplitText(FileText(pieces))) == Statements(pieces)
  {
    SplitOfFile(pieces);
    assert (pieces + [""])[..|pieces|] == pieces;
    assert StatementOf("") == None;
  }

  // ---------------------------------------------------------------- what a statement is

  /** Two slashes stand at `j`, and the line has not ended by `i`. */
  predicate CommentFrom(s: string, j: nat, i: nat)
    requires j <= i < |s|
  {
    j + 1 < |s| && s[j] == '/' && s[j + 1] == '/' && forall k | j <= k <= i :: s[k] != '\n'
  }

  /** The character lies in a comment: two slashes stand at or before it on its line. */
  ghost predicate InComment(s: string, i: nat)
    requires i < |s|
  {
    exists j: nat :: j <= i && CommentFrom(s, j, i)
  }

  /** The character is neither white space nor in a comment. */
  ghost predicate ContentAt(s: string, i: nat) { i < |s| && !IsSpace(s[i]) && !InComment(s, i) }

  ghost predicate HasContent(s: string) { exists i: nat :: ContentAt(s, i) }

  lemma ContentAfterFirst(s: string)
    requires s != "" && !("//" <= s)
    ensures HasContent(s) <==> !IsSpace(s[0]) || HasContent(s[1..])
  {
    assert ContentAt(s, 0) <==> !IsSpace(s[0]);
    if i: nat :| ContentAt(s[1..], i) {
      FirstNoComment(s, i + 1);
      assert ContentAt(s, i + 1);
    }
    if HasContent(s) && IsSpace(s[0]) {
      var i: nat :| ContentAt(s, i);
      FirstNoComment(s, i);
      assert ContentAt(s[1..], i - 1);
    }
  }

  lemma FirstNoComment(s: string, i: nat)
    requires 0 < i < |s| && !("//" <= s)
    ensures InComment(s, i) <==> InComment(s[1..], i - 1)
  {
    if InComment(s, i) {
      var j: nat :| j <= i && CommentFrom(s, j, i);
      assert j > 0;
      assert CommentFrom(s[1..], j - 1, i - 1);
    }
    if InComment(s[1..], i - 1) {
      var j: nat :| j <= i - 1 && CommentFrom(s[1..], j, i - 1);
      assert CommentFrom(s, j + 1, i);
    }
  }

  lemma PastLineEnd(s: string, n: nat, i: nat)
    requires n <= i < |s| && s[n] == '\n'
    ensures InComment(s, i) <==> InComment(s[n..], i - n)
  {
    if InComment(s, i) {
      var j: nat :| j <= i && CommentFrom(s, j, i);
      assert j > n;
      assert CommentFrom(s[n..], j - n, i - n);
    }
    if InComment(s[n..], i - n) {
      var j: nat :| j <= i - n && CommentFrom(s[n..], j, i - n);
      assert CommentFrom(s, j + n, i);
    }
  }

  lemma HiddenByFirst(s: string, n: nat, i: nat)
    requires "//" <= s && n <= |s| && (forall k | 0 <= k < n :: s[k] != '\n') && i < n
    ensures InComment(s, i)
  {
    assert CommentFrom(s, 0, i);
  }

  lemma ContentPastLineEnd(s: string, n: nat, i: nat)
    requires n <= i && n < |s| && s[n] == '\n'
    ensures ContentAt(s, i) <==> ContentAt(s[n..], i - n)
  {
    if i < |s| {
      PastLineEnd(s, n, i);
    }
  }

  /** A comment at the front hides everything up to the end of its line. */
  lemma ContentAfterComment(s: string, n: nat)
    requires "//" <= s && n <= |s| && (forall k | 0 <= k < n :: s[k] != '\n') && (n < |s| ==> s[n] == '\n')
    ensures HasContent(s) <==> HasContent(s[n..])
  {
    if i: nat :| ContentAt(s, i) {
      if i < n {
        HiddenByFirst(s, n, i);
        assert false;
      }
      ContentPastLineEnd(s, n, i);
    }
    if i: nat :| ContentAt(s[n..], i) {
      ContentPastLineEnd(s, n, i + n);
    }
  }

  lemma {:induction false} AfterLineAt(s: string) returns (n: nat)
    ensures n <= |s| && AfterLine(s) == s[n..]
    ensures (forall k | 0 <= k < n :: s[k] != '\n') && (n < |s| ==> s[n] == '\n')
  {
    if s == "" || s[0] == '\n' {
      n := 0;
    } else {
      var m := AfterLineAt(s[1..]);
      n := m + 1;
    }
  }

  lemma BlankCons(c: char, s: string)
    ensures Blank([c] + s) <==> IsSpace(c) && Blank(s)
  {
    assert ([c] + s)[0] == c && forall d | d in s :: d in [c] + s;
  }

  /** Taking the comments out leaves something but white space exactly when the text has content. */
  lemma {:induction false} CommentsHideNoContent(s: string)
    ensures Blank(WithoutComments(s)) <==> !HasContent(s)
    decreases |s|
  {
    if s == "" {
    } else if "//" <= s {
      var m := AfterLineAt(s[2..]);
      assert s[2..][m..] == s[m + 2..];
      forall k | 0 <= k < m + 2 ensures s[k] != '\n' {
        assert k >= 2 ==> s[k] == s[2..][k - 2];
      }
      ContentAfterComment(s, m + 2);
      CommentsHideNoContent(s[m + 2..]);
    } else {
      ContentAfterFirst(s);
      CommentsHideNoContent(s[1..]);
      BlankCons(s[0], WithoutComments(s[1..]));
    }
  }

  // ---------------------------------------------------------------- white space at the ends

  /** A text that neither begins nor ends in white space. */
  predicate Trimmed(s: string) { s != "" && !IsSpace(s[0]) && !IsSpace(s[|s| - 1]) }

  lemma {:induction false} StripLeftAt(s: string) returns (k: nat)
    ensures k <= |s| && StripLeft(s) == s[k..] && Blank(s[..k]) && (k < |s| ==> !IsSpace(s[k]))
  {
    if s != "" && IsSpace(s[0]) {
      var m := StripLeftAt(s[1..]);
      k := m + 1;
      BlankCons(s[0], s[1..][..m]);
      assert s[..k] == [s[0]] + s[1..][..m];
    } else {
      k := 0;
    }
  }

  lemma BlankSnoc(s: string, c: char)
    ensures Blank(s + [c]) <==> Blank(s) && IsSpace(c)
  {
    assert (s + [c])[|s|] == c && forall d | d in s :: d in s + [c];
  }

  lemma {:induction false} StripRightAt(s: string) returns (k: nat)
    ensures k <= |s| && StripRight(s) == s[..k] && Blank(s[k..]) && (k > 0 ==> !IsSpace(s[k - 1]))
  {
    var n := |s| - 1;
    if s != "" && IsSpace(s[n]) {
      k := StripRightAt(s[..n]);
      BlankSnoc(s[..n][k..], s[n]);
      assert s[k..] == s[..n][k..] + [s[n]] && s[..n][..k] == s[..k];
    } else {
      k := |s|;
      assert s[..k] == s;
    }
  }

  lemma StripParts(s: string) returns (lead: string, trail: string)
    ensures s == lead + Strip(s) + trail && Blank(lead) && Blank(trail)
    ensures Strip(s) == "" || Trimmed(Strip(s))
  {
    var k := StripLeftAt(s);
    var l := StripRightAt(s[k..]);
    lead, trail := s[..k], s[k..][l..];
    assert s[k..] == s[k..][..l] + s[k..][l..] && s == s[..k] + s[k..];
  }

  lemma StripBlank(s: string)
    ensures Strip(s) == "" <==> Blank(s)
  {
    var lead, trail := StripParts(s);
    if Strip(s) == "" {
      assert s == lead + trail;
    } else {
      assert Strip(s)[0] in s;
    }
  }

  lemma {:induction false} StripRightKeeps(s: string, trail: string)
    requires s != "" && !IsSpace(s[|s| - 1]) && Blank(trail)
    ensures StripRight(s + trail) == s
  {
    if trail == "" {
      assert s + trail == s;
    } else {
      var n := |trail| - 1;
      assert trail[n] in trail && forall c | c in trail[..n] :: c in trail;
      StripRightKeeps(s, trail[..n]);
      assert (s + trail)[..|s + trail| - 1] == s + trail[..n];
    }
  }

  /** The piece is `core` between white space. */
  ghost predicate Around(piece: string, core: string) {
    Trimmed(core) && exists lead, trail :: Blank(lead) && Blank(trail) && piece == lead + core + trail
  }

  lemma Terminated(piece: string, lead: string, core: string, trail: string)
    requires piece == lead + core + trail && Trimmed(core) && Blank(trail) && Strip(piece) == core
    requires Strip(WithoutComments(piece)) != ""
    ensures StatementOf(piece) == Some(if core[|core| - 1] == ';' then core else core + ";")
  {
    StripRightKeeps(lead + core, trail);
  }

  /** A piece is a statement exactly when it has content. */
  lemma ContentDecides(piece: string)
    ensures StatementOf(piece).Some? <==> HasContent(piece)
    ensures HasContent(piece) ==> Strip(WithoutComments(piece)) != ""
  {
    CommentsHideNoContent(piece);
    StripBlank(WithoutComments(piece));
  }

  /** The statement is the piece without the white space around it, ending in one semicolon of its own or added. */
  lemma StatementIs(piece: string) returns (core: string)
    requires HasContent(piece)
    ensures Around(piece, core)
    ensures StatementOf(piece) == Some(if core[|core| - 1] == ';' then core else core + ";")
  {
    ContentDecides(piece);
    StripBlank(piece);
    ContentIsNotBlank(piece);
    var lead, trail := StripParts(piece);
    core := Strip(piece);
    Terminated(piece, lead, core, trail);
  }

  lemma ContentIsNotBlank(s: string)
    requires HasContent(s)
    ensures !Blank(s)
  {
    var i: nat :| ContentAt(s, i);
    assert s[i] in s;
  }

  // ---------------------------------------------------------------- statements come back

  /** A statement as written: no separator in it, no space around it, no semicolon at its end, not all comment. */
  ghost predicate Plain(s: string) { Whole(s) && Trimmed(s) && s[|s| - 1] != ';' && HasContent(s) }

  lemma {:induction false} StripLeftKeeps(lead: string, s: string)
    requires s != "" && !IsSpace(s[0]) && Blank(lead)
    ensures StripLeft(lead + s) == s
  {
    if lead == "" {
      assert lead + s == s;
    } else {
      assert lead[0] in lead && forall c | c in lead[1..] :: c in lead;
      StripLeftKeeps(lead[1..], s);
      assert (lead + s)[1..] == lead[1..] + s;
    }
  }

  lemma PlainStatement(s: string)
    requires Plain(s)
    ensures StatementOf(s) == Some(s + ";")
  {
    CommentsHideNoContent(s);
    StripBlank(WithoutComments(s));
    StripLeftKeeps("", s);
    StripRightKeeps(s, "");
    assert "" + s == s && s + "" == s;
  }

  function Closed(statements: seq<string>): seq<string> {
    seq(|statements|, i requires 0 <= i < |statements| => statements[i] + ";")
  }

  lemma {:induction false} PlainStatements(pieces: seq<string>)
    requires forall p | p in pieces :: Plain(p)
    ensures Statements(pieces) == Closed(pieces)
  {
    if pieces != [] {
      var front, last := pieces[..|pieces| - 1], pieces[|pieces| - 1];
      assert last in pieces && forall p | p in front :: p in pieces;
      PlainStatements(front);
      PlainStatement(last);
      assert Closed(pieces) == Closed(front) + [last + ";"];
    }
  }

  /** A file of statements, each ended by a semicolon and a line feed, gives back those statements. */
  lemma StatementsComeBack(statements: seq<string>)
    requires forall s | s in statements :: Plain(s)
    ensures Statements(SplitText(FileText(statements))) == Closed(statements)
  {
    SplitRoundTrip(statements);
    PlainStatements(statements);
  }
}
