/** Detection of SQL comments outside quoted text. */
module Scanner {
  // ---------------------------------------------------------------- the lexer

  /** What encloses the current position. */
  datatype Mode = Normal | Single | Double | Dollar(delimiter: string)

  datatype Outcome = CommentFound | Ends(mode: Mode)

  predicate TagStart(c: char) {
    'A' <= c <= 'Z' || 'a' <= c <= 'z' || c == '_'
  }

  predicate TagChar(c: char) {
    TagStart(c) || '0' <= c <= '9'
  }

  /** The number of tag characters at the start of a text. */
  function TagLength(s: string): (n: nat)
    ensures n <= |s|
    ensures forall i :: 0 <= i < n ==> TagChar(s[i])
    ensures n < |s| ==> !TagChar(s[n])
  {
    if s == "" || !TagChar(s[0]) then 0 else 1 + TagLength(s[1..])
  }

  /** The length of the dollar-quote delimiter a text starts with, 0 for none: `$`, an optional
      tag that does not start with a digit, `$`. */
  function DelimiterLength(s: string): (n: nat)
    ensures n <= |s| && (n == 0 || 2 <= n)
  {
    if s == "" || s[0] != '$' then 0
    else
      var tag := TagLength(s[1..]);
      if tag + 1 < |s| && s[tag + 1] == '$' && (tag == 0 || TagStart(s[1])) then tag + 2 else 0
  }

  function Drop(s: string, n: nat): (r: string)
    ensures n > 0 && s != "" ==> |r| < |s|
  {
    if n <= |s| then s[n..] else ""
  }

  predicate StartsComment(s: string) {
    "--" <= s || "/*" <= s
  }

  /** Reads a text from its start in a mode: a comment outside quotes, or the mode at the end. */
  function Scan(s: string, mode: Mode): Outcome
    decreases |s|
  {
    if s == "" then Ends(mode)
    else
      match mode
      case Normal =>
        if s[0] == '\'' then Scan(s[1..], Single)
        else if s[0] == '"' then Scan(s[1..], Double)
        else if StartsComment(s) then CommentFound
        else if DelimiterLength(s) > 0 then Scan(s[DelimiterLength(s)..], Dollar(s[..DelimiterLength(s)]))
        else Scan(s[1..], Normal)
      case Single =>
        if s[0] == '\\' || "''" <= s then Scan(Drop(s, 2), Single)
        else Scan(s[1..], if s[0] == '\'' then Normal else Single)
      case Double =>
        if "\"\"" <= s then Scan(Drop(s, 2), Double)
        else Scan(s[1..], if s[0] == '"' then Normal else Double)
      case Dollar(delimiter) =>
        if delimiter != "" && delimiter <= s then Scan(s[|delimiter|..], Normal)
        else Scan(s[1..], mode)
  }

  lemma DropDrop(s: string, i: nat, j: nat)
    requires i <= |s|
    ensures Drop(Drop(s, i), j) == Drop(s, i + j)
  {
  }

  lemma NormalStep(s: string)
    requires s != ""
    ensures s[0] == '\'' ==> Scan(s, Normal) == Scan(Drop(s, 1), Single)
    ensures s[0] == '"' ==> Scan(s, Normal) == Scan(Drop(s, 1), Double)
    ensures StartsComment(s) ==> Scan(s, Normal) == CommentFound
    ensures s[0] != '\'' && s[0] != '"' && !StartsComment(s) ==>
              var n := DelimiterLength(s);
              Scan(s, Normal) == if n > 0 then Scan(Drop(s, n), Dollar(s[..n])) else Scan(Drop(s, 1), Normal)
    ensures s[0] != '$' ==> DelimiterLength(s) == 0
  {
  }

  lemma SingleStep(s: string)
    requires s != ""
    ensures Scan(s, Single) == if s[0] == '\\' || "''" <= s then Scan(Drop(s, 2), Single)
                               else Scan(Drop(s, 1), if s[0] == '\'' then Normal else Single)
  {
  }

  lemma DoubleStep(s: string)
    requires s != ""
    ensures Scan(s, Double) == if "\"\"" <= s then Scan(Drop(s, 2), Double)
                               else Scan(Drop(s, 1), if s[0] == '"' then Normal else Double)
  {
  }

  lemma DollarStep(s: string, d: string)
    requires s != "" && d != ""
    ensures Scan(s, Dollar(d)) == if d <= s then Scan(Drop(s, |d|), Normal) else Scan(Drop(s, 1), Dollar(d))
  {
  }

  lemma AtEnd(mode: Mode)
    ensures Scan("", mode) == Ends(mode)
  {
  }

  /** The character after the first, as a text; empty at the end. */
  function Following(s: string): string
    requires s != ""
  {
    if |s| > 1 then [s[1]] else ""
  }

  lemma TwoCharacters(s: string)
    requires s != ""
    ensures StartsComment(s) <==> (s[0] == '-' && Following(s) == "-") || (s[0] == '/' && Following(s) == "*")
    ensures "''" <= s <==> s[0] == '\'' && Following(s) == "'"
    ensures "\"\"" <= s <==> s[0] == '"' && Following(s) == "\""
  {
  }

  /** The index and state loop. */
  method ContainsComment(sql: string) returns (found: bool)
    ensures found <==> Scan(sql, Normal) == CommentFound
  {
    hide Scan, DelimiterLength, StartsComment, Drop;
    var index, mode := 0, Normal;
    DropNone(sql);
    while index < |sql|
      invariant 0 <= index
      invariant mode.Dollar? ==> mode.delimiter != ""
      invariant Scan(Drop(sql, index), mode) == Scan(sql, Normal)
      decreases |sql| - index
    {
      var rest := sql[index..];
      DropSome(sql, index);
      TwoCharacters(rest);
      DropDrop(sql, index, 1);
      DropDrop(sql, index, 2);
      var c, following := rest[0], Following(rest);
      match mode {
        case Normal =>
          NormalStep(rest);
          if c == '\'' {
            mode := Single;
          } else if c == '"' {
            mode := Double;
          } else if (c == '-' && following == "-") || (c == '/' && following == "*") {
            return true;
          } else if c == '$' {
            var length := DelimiterLength(rest);
            if length > 0 {
              DropDrop(sql, index, length);
              mode := Dollar(rest[..length]);
              index := index + length - 1;
            }
          }
        case Single =>
          SingleStep(rest);
          if c == '\\' {
            index := index + 1;
          } else if c == '\'' {
            if following == "'" {
              index := index + 1;
            } else {
              mode := Normal;
            }
          }
        case Double =>
          DoubleStep(rest);
          if c == '"' {
            if following == "\"" {
              index := index + 1;
            } else {
              mode := Normal;
            }
          }
        case Dollar(delimiter) =>
          DollarStep(rest, delimiter);
          if delimiter <= rest {
            DropDrop(sql, index, |delimiter|);
            mode := Normal;
            index := index + |delimiter| - 1;
          }
      }
      index := index + 1;
    }
    DropSome(sql, index);
    AtEnd(mode);
    found := false;
  }

  lemma DropNone(s: string)
    ensures Drop(s, 0) == s
  {
  }

  lemma DropSome(s: string, n: nat)
    ensures n <= |s| ==> Drop(s, n) == s[n..]
    ensures |s| <= n ==> Drop(s, n) == ""
  {
  }

  // ---------------------------------------------------------------- what a comment is

  predicate CommentAt(s: string, i: int) {
    0 <= i < |s| && StartsComment(s[i..])
  }

  predicate PlainChar(c: char) {
    c != '\'' && c != '"' && c != '$'
  }

  /** In text without quotes of any kind, a comment is found exactly when `--` or an opening
      slash-star occurs anywhere. */
  lemma {:induction false} PlainTextComments(s: string)
    requires forall i :: 0 <= i < |s| ==> PlainChar(s[i])
    ensures Scan(s, Normal) == CommentFound <==> exists i :: CommentAt(s, i)
    decreases |s|
  {
    if s == "" {
    } else if StartsComment(s) {
      assert s[0..] == s;
      assert CommentAt(s, 0);
    } else {
      PlainTextComments(s[1..]);
      if exists i :: CommentAt(s[1..], i) {
        var i :| CommentAt(s[1..], i);
        assert s[1..][i..] == s[i + 1..];
        assert CommentAt(s, i + 1);
      }
      if exists i :: CommentAt(s, i) {
        var i :| CommentAt(s, i);
        assert s[0..] == s;
        assert s[i..] == s[1..][i - 1..];
        assert CommentAt(s[1..], i - 1);
      }
    }
  }

  // ---------------------------------------------------------------- quoted text

  /** Quotes and backslashes doubled. */
  function Escaped(text: string): string {
    if text == "" then ""
    else (if text[0] == '\'' || text[0] == '\\' then [text[0], text[0]] else [text[0]]) + Escaped(text[1..])
  }

  function Quoted(text: string): string {
    "'" + Escaped(text) + "'"
  }

  lemma SingleClosed(rest: string)
    ensures Scan("'" + rest, Single) == Scan(rest, Normal)
  {
    var s := "'" + rest;
    assert s[1..] == rest;
    if rest != "" && rest[0] == '\'' {
      assert "''" <= s && s[2..] == rest[1..];
    }
  }

  lemma {:induction false} SingleBody(text: string, rest: string)
    ensures Scan(Escaped(text) + "'" + rest, Single) == Scan(rest, Normal)
    decreases |text|
  {
    hide Scan, Drop;
    var s := Escaped(text) + "'" + rest;
    if text == "" {
      assert s == "'" + rest;
      SingleClosed(rest);
    } else {
      var tail := Escaped(text[1..]) + "'" + rest;
      SingleBody(text[1..], rest);
      var u := if text[0] == '\'' || text[0] == '\\' then [text[0], text[0]] else [text[0]];
      assert s == u + tail;
      assert s[|u|..] == tail;
      SingleStep(s);
      DropSome(s, |u|);
    }
  }

  /** Every text, quoted with its quotes and backslashes doubled, holds no comment and ends where
      it began, outside quotes; whatever follows it is read as if it stood alone, even when it
      starts with another quote. */
  lemma QuotedIsClosed(text: string, rest: string)
    ensures Scan(Quoted(text), Normal) == Ends(Normal)
    ensures Scan(Quoted(text) + rest, Normal) == Scan(rest, Normal)
  {
    SingleBody(text, "");
    assert Escaped(text) + "'" + "" == Quoted(text)[1..];
    SingleBody(text, rest);
    assert (Quoted(text) + rest)[1..] == Escaped(text) + "'" + rest;
  }

  predicate Delimiter(d: string) {
    |d| >= 2 && DelimiterLength(d) == |d|
  }

  lemma {:induction false} TagLengthPrefix(a: string, b: string)
    requires forall i :: 0 <= i < |a| ==> TagChar(a[i])
    requires b != "" && !TagChar(b[0])
    ensures TagLength(a + b) == |a|
  {
    hide TagLength, TagChar;
    assert (a + b)[|a|] == b[0];
  }

  lemma DelimiterOpens(d: string, rest: string)
    requires Delimiter(d)
    ensures DelimiterLength(d + rest) == |d| && d[0] == '$'
  {
    var tag := TagLength(d[1..]);
    var name := d[1..tag + 1];
    assert (d + rest)[1..] == name + ("$" + rest);
    TagLengthPrefix(name, "$" + rest);
  }

  /** The delimiter does not occur in the text, nor across its end, before it closes it. */
  predicate ClosesFirstAtEnd(d: string, text: string) {
    forall k :: 0 <= k < |text| ==> !(d <= (text + d)[k..])
  }

  lemma NotYetClosed(d: string, text: string, rest: string)
    requires text != "" && ClosesFirstAtEnd(d, text)
    ensures !(d <= text + d + rest)
  {
    assert (text + d + rest)[..|d|] == (text + d)[..|d|];
    assert (text + d)[0..] == text + d;
    assert !(d <= (text + d)[0..]);
  }

  lemma {:induction false} DollarBody(d: string, text: string, rest: string)
    requires Delimiter(d) && ClosesFirstAtEnd(d, text)
    ensures Scan(text + d + rest, Dollar(d)) == Scan(rest, Normal)
    decreases |text|
  {
    var s := text + d + rest;
    if text == "" {
      assert s == d + rest;
      assert s[|d|..] == rest;
    } else {
      assert s[1..] == text[1..] + d + rest;
      forall k | 0 <= k < |text[1..]|
        ensures !(d <= (text[1..] + d)[k..])
      {
        assert (text[1..] + d)[k..] == (text + d)[k + 1..];
      }
      DollarBody(d, text[1..], rest);
      NotYetClosed(d, text, rest);
    }
  }

  /** Every text, between two equal dollar-quote delimiters of which the second is the first that
      closes it, holds no comment and ends outside quotes, whatever follows. */
  lemma DollarQuotedIsClosed(d: string, text: string, rest: string)
    requires Delimiter(d) && ClosesFirstAtEnd(d, text)
    ensures Scan(d + text + d + rest, Normal) == Scan(rest, Normal)
    ensures Scan(d + text + d, Normal) == Ends(Normal)
  {
    hide Scan, Delimiter, ClosesFirstAtEnd;
    OpenDollar(d, text + d + rest);
    assert d + (text + d + rest) == d + text + d + rest;
    DollarBody(d, text, rest);
    OpenDollar(d, text + d);
    assert d + (text + d) == d + text + d && text + d + "" == text + d;
    DollarBody(d, text, "");
    AtEnd(Normal);
  }

  lemma OpenDollar(d: string, body: string)
    requires Delimiter(d)
    ensures Scan(d + body, Normal) == Scan(body, Dollar(d))
  {
    hide Scan, DelimiterLength;
    DelimiterOpens(d, body);
    NormalStep(d + body);
    DropSome(d + body, |d|);
    assert (d + body)[0] == '$';
    assert (d + body)[..|d|] == d && (d + body)[|d|..] == body;
  }

  // ---------------------------------------------------------------- what a delimiter is

  predicate Digit(c: char) {
    '0' <= c <= '9'
  }

  predicate Word(c: char) {
    'A' <= c <= 'Z' || 'a' <= c <= 'z' || Digit(c) || c == '_'
  }

  /** A dollar-quote delimiter: between two dollar signs nothing, or letters, digits and underscores
      of which the first is no digit. */
  predicate IsDelimiter(d: string) {
    && |d| >= 2 && d[0] == '$' && d[|d| - 1] == '$'
    && (forall i :: 0 < i < |d| - 1 ==> Word(d[i]))
    && (|d| > 2 ==> !Digit(d[1]))
  }

  /** The delimiter a text starts with, if any, is the one the scanner takes. */
  lemma DelimiterMeans(s: string, d: string)
    requires d <= s
    ensures IsDelimiter(d) <==> d != "" && DelimiterLength(s) == |d|
  {
    if d != "" && DelimiterLength(s) == |d| {
      TakenIsDelimiter(s);
      assert d == s[..|d|];
    }
    if IsDelimiter(d) {
      var name, rest := d[1..|d| - 1], s[|d| - 1..];
      assert s[1..] == name + rest;
      assert rest[0] == d[|d| - 1];
      TagLengthPrefix(name, rest);
    }
  }

  lemma TakenIsDelimiter(s: string)
    requires DelimiterLength(s) > 0
    ensures IsDelimiter(s[..DelimiterLength(s)])
  {
    var d := s[..DelimiterLength(s)];
    forall i | 0 < i < |d| - 1
      ensures Word(d[i])
    {
      assert TagChar(s[1..][i - 1]);
    }
  }

  // ---------------------------------------------------------------- texts in pieces

  /** Inside single quotes: a doubled quote, a backslash with any character, or another character. */
  predicate SingleUnit(u: string) {
    u == "''" || (|u| == 2 && u[0] == '\\') || (|u| == 1 && u[0] != '\'' && u[0] != '\\')
  }

  /** Inside double quotes: a doubled quote or another character. */
  predicate DoubleUnit(u: string) {
    u == "\"\"" || (|u| == 1 && u[0] != '"')
  }

  function Joined(units: seq<string>): string {
    if units == [] then "" else units[0] + Joined(units[1..])
  }

  lemma {:induction false} SingleUnits(units: seq<string>, rest: string)
    requires forall i :: 0 <= i < |units| ==> SingleUnit(units[i])
    ensures Scan(Joined(units) + rest, Single) == Scan(rest, Single)
    decreases |units|
  {
    hide Scan;
    if units == [] {
      assert Joined(units) + rest == rest;
    } else {
      var u, tail := units[0], Joined(units[1..]) + rest;
      var s := Joined(units) + rest;
      assert s == u + tail;
      SingleUnits(units[1..], rest);
      SingleStep(s);
      assert s[0] == u[0];
      assert s[|u|..] == tail;
      DropSome(s, |u|);
      if |u| == 1 && s[0] != '\'' {
        assert !("''" <= s);
      }
    }
  }

  lemma {:induction false} DoubleUnits(units: seq<string>, rest: string)
    requires forall i :: 0 <= i < |units| ==> DoubleUnit(units[i])
    ensures Scan(Joined(units) + rest, Double) == Scan(rest, Double)
    decreases |units|
  {
    hide Scan;
    if units == [] {
      assert Joined(units) + rest == rest;
    } else {
      var u, tail := units[0], Joined(units[1..]) + rest;
      var s := Joined(units) + rest;
      assert s == u + tail;
      DoubleUnits(units[1..], rest);
      DoubleStep(s);
      assert s[0] == u[0];
      assert s[|u|..] == tail;
      DropSome(s, |u|);
    }
  }

  /** What one character of text outside quotes is. */
  predicate BareAt(s: string, i: int)
    requires 0 <= i < |s|
  {
    s[i] != '\'' && s[i] != '"' && !("--" <= s[i..]) && !("/*" <= s[i..]) && DelimiterLength(s[i..]) == 0
  }

  /** Text outside quotes: no quote in it, and no delimiter or comment starting in it, whatever
      follows. */
  predicate Unquoted(text: string, following: string) {
    forall i :: 0 <= i < |text| ==> BareAt(text + following, i)
  }

  lemma BareShifted(s: string, i: int)
    requires 0 < i < |s| && BareAt(s, i)
    ensures BareAt(s[1..], i - 1)
  {
    hide DelimiterLength;
    assert s[1..][i - 1..] == s[i..];
  }

  lemma UnquotedRest(text: string, following: string)
    requires text != "" && Unquoted(text, following)
    ensures Unquoted(text[1..], following)
  {
    hide BareAt;
    var s := text + following;
    assert s[1..] == text[1..] + following;
    forall i | 0 <= i < |text[1..]|
      ensures BareAt(text[1..] + following, i)
    {
      BareShifted(s, i + 1);
    }
  }

  lemma UnquotedHead(text: string, following: string)
    requires text != "" && Unquoted(text, following)
    ensures text[0] != '\'' && text[0] != '"' && !StartsComment(text + following)
    ensures DelimiterLength(text + following) == 0
  {
    hide DelimiterLength;
    assert BareAt(text + following, 0);
    assert (text + following)[0..] == text + following;
  }

  lemma {:induction false} UnquotedRead(text: string, following: string)
    requires Unquoted(text, following)
    ensures Scan(text + following, Normal) == Scan(following, Normal)
    decreases |text|
  {
    hide Scan, DelimiterLength, Unquoted, StartsComment, Drop;
    if text == "" {
      assert text + following == following;
    } else {
      var s := text + following;
      UnquotedRest(text, following);
      UnquotedRead(text[1..], following);
      UnquotedHead(text, following);
      NormalStep(s);
      DropSome(s, 1);
      assert s[1..] == text[1..] + following && s[0] == text[0];
    }
  }

  datatype Piece =
    | Bare(text: string)
    | SingleQuoted(units: seq<string>)
    | DoubleQuoted(units: seq<string>)
    | DollarQuoted(delimiter: string, text: string)

  function Written(p: Piece): string {
    match p
    case Bare(text) => text
    case SingleQuoted(units) => "'" + Joined(units) + "'"
    case DoubleQuoted(units) => "\"" + Joined(units) + "\""
    case DollarQuoted(delimiter, text) => delimiter + text + delimiter
  }

  predicate Fits(p: Piece, following: string) {
    match p
    case Bare(text) => Unquoted(text, following)
    case SingleQuoted(units) => forall i :: 0 <= i < |units| ==> SingleUnit(units[i])
    case DoubleQuoted(units) => forall i :: 0 <= i < |units| ==> DoubleUnit(units[i])
    case DollarQuoted(delimiter, text) => IsDelimiter(delimiter) && ClosesFirstAtEnd(delimiter, text)
  }

  lemma SingleRead(units: seq<string>, following: string)
    requires forall i :: 0 <= i < |units| ==> SingleUnit(units[i])
    ensures Scan("'" + Joined(units) + "'" + following, Normal) == Scan(following, Normal)
  {
    hide Scan, DelimiterLength, SingleUnit;
    var s := "'" + (Joined(units) + ("'" + following));
    assert "'" + Joined(units) + "'" + following == s;
    NormalStep(s);
    DropSome(s, 1);
    assert s[1..] == Joined(units) + ("'" + following);
    SingleUnits(units, "'" + following);
    SingleBody("", following);
    assert Escaped("") + "'" + following == "'" + following;
  }

  lemma DoubleRead(units: seq<string>, following: string)
    requires forall i :: 0 <= i < |units| ==> DoubleUnit(units[i])
    ensures Scan("\"" + Joined(units) + "\"" + following, Normal) == Scan(following, Normal)
  {
    hide Scan, DelimiterLength, DoubleUnit;
    var s := "\"" + (Joined(units) + ("\"" + following));
    assert "\"" + Joined(units) + "\"" + following == s;
    NormalStep(s);
    DropSome(s, 1);
    assert s[1..] == Joined(units) + ("\"" + following);
    DoubleUnits(units, "\"" + following);
    DoubleClosed(following);
  }

  lemma DollarRead(delimiter: string, text: string, following: string)
    requires IsDelimiter(delimiter) && ClosesFirstAtEnd(delimiter, text)
    ensures Scan(delimiter + text + delimiter + following, Normal) == Scan(following, Normal)
  {
    hide Scan, DelimiterLength, ClosesFirstAtEnd;
    DelimiterMeans(delimiter, delimiter);
    DollarQuotedIsClosed(delimiter, text, following);
  }

  lemma PieceRead(p: Piece, following: string)
    requires Fits(p, following)
    ensures Scan(Written(p) + following, Normal) == Scan(following, Normal)
  {
    hide Scan, ClosesFirstAtEnd, Unquoted, SingleUnit, DoubleUnit, IsDelimiter;
    match p
    case Bare(text) => UnquotedRead(text, following);
    case SingleQuoted(units) => SingleRead(units, following);
    case DoubleQuoted(units) => DoubleRead(units, following);
    case DollarQuoted(delimiter, text) => DollarRead(delimiter, text, following);
  }

  lemma DoubleClosed(following: string)
    ensures Scan("\"" + following, Double) == Scan(following, Normal)
  {
    var s := "\"" + following;
    assert s[1..] == following;
    if following != "" && following[0] == '"' {
      assert "\"\"" <= s && s[2..] == following[1..];
    }
  }

  function WrittenAll(pieces: seq<Piece>): string {
    if pieces == [] then "" else Written(pieces[0]) + WrittenAll(pieces[1..])
  }

  /** Each piece fits what comes after it. */
  predicate FitAll(pieces: seq<Piece>, rest: string)
    decreases |pieces|
  {
    pieces == [] || (Fits(pieces[0], WrittenAll(pieces[1..]) + rest) && FitAll(pieces[1..], rest))
  }

  lemma {:induction false} PiecesSkipped(pieces: seq<Piece>, rest: string)
    requires FitAll(pieces, rest)
    ensures Scan(WrittenAll(pieces) + rest, Normal) == Scan(rest, Normal)
    decreases |pieces|
  {
    hide Scan, Fits, Written;
    if pieces == [] {
      assert WrittenAll(pieces) + rest == rest;
    } else {
      PiecesSkipped(pieces[1..], rest);
      PieceRead(pieces[0], WrittenAll(pieces[1..]) + rest);
      assert WrittenAll(pieces) + rest == Written(pieces[0]) + (WrittenAll(pieces[1..]) + rest);
    }
  }

  /** Of any text in pieces, quoted and bare in any order, nothing is a comment, and whatever follows
      it is read as if it stood alone. So a marker after it is found, and nothing is at its end. */
  lemma PiecesRead(pieces: seq<Piece>, rest: string)
    requires FitAll(pieces, rest)
    ensures Scan(WrittenAll(pieces) + rest, Normal) == Scan(rest, Normal)
    ensures "--" <= rest || "/*" <= rest ==> Scan(WrittenAll(pieces) + rest, Normal) == CommentFound
    ensures rest == "" ==> Scan(WrittenAll(pieces) + rest, Normal) == Ends(Normal)
  {
    hide Scan, FitAll, WrittenAll, DelimiterLength;
    PiecesSkipped(pieces, rest);
    AtEnd(Normal);
    if rest != "" {
      NormalStep(rest);
    }
  }

  /** A quote that is never closed holds no comment either. */
  lemma NeverClosed(units: seq<string>, others: seq<string>, delimiter: string, text: string)
    requires forall i :: 0 <= i < |units| ==> SingleUnit(units[i])
    requires forall i :: 0 <= i < |others| ==> DoubleUnit(others[i])
    requires delimiter != "" && forall k :: 0 <= k < |text| ==> !(delimiter <= text[k..])
    ensures Scan(Joined(units), Single) == Ends(Single) && Scan(Joined(units) + "\\", Single) == Ends(Single)
    ensures Scan(Joined(others), Double) == Ends(Double)
    ensures Scan(text, Dollar(delimiter)) == Ends(Dollar(delimiter))
  {
    SingleUnits(units, "");
    SingleUnits(units, "\\");
    DoubleUnits(others, "");
    assert Joined(units) + "" == Joined(units) && Joined(others) + "" == Joined(others);
    DollarOpen(delimiter, text);
  }

  lemma {:induction false} DollarOpen(delimiter: string, text: string)
    requires delimiter != "" && forall k :: 0 <= k < |text| ==> !(delimiter <= text[k..])
    ensures Scan(text, Dollar(delimiter)) == Ends(Dollar(delimiter))
    decreases |text|
  {
    if text != "" {
      assert text[0..] == text;
      forall k | 0 <= k < |text[1..]|
        ensures text[1..][k..] == text[k + 1..]
      {
      }
      DollarOpen(delimiter, text[1..]);
    }
  }
}
