/** The optional "Authors:" step and its parser, which turns text such as
    `Alice:Owner, Bob:Dev` into (name, role) pairs. */
module QuiltAuthors {
  import opened Wrappers
  import opened Text
  import WizardData

  /** An author as the parser returns it: (name, role). */
  type Author = (string, string)

  /** `it[1]` on a list that has only `size` elements throws this. */
  datatype IndexError = IndexOutOfBounds(index: nat, size: nat)

  /** The text that is split: the input trimmed, then with every brace deleted. */
  function AuthorsText(s: string): (r: string)
    ensures '{' !in r && '}' !in r
  {
    RemoveBraces(Trim(s))
  }

  /** The comma-separated pieces: `.split(Regex("\\s*,\\s*"))`. */
  function AuthorPieces(s: string): seq<string> {
    SplitAround(AuthorsText(s), ',')
  }

  /** `.map { it.split(Regex("\\s*:\\s*")) }.map { it[0] to it[1] }`: each
      piece becomes the first two parts of its colon split, and the first
      piece without any colon makes the whole call throw. */
  function ToAuthors(pieces: seq<string>): (r: Result<seq<Author>, IndexError>)
    ensures r.Ok? <==> forall i :: 0 <= i < |pieces| ==> ':' in pieces[i]
    ensures r.Ok? ==> |r.value| == |pieces|
    ensures r.Ok? ==> forall i :: 0 <= i < |pieces| ==>
      r.value[i] == (SplitAround(pieces[i], ':')[0], SplitAround(pieces[i], ':')[1])
    ensures r.Err? ==> r.error == IndexOutOfBounds(1, 1)
    decreases |pieces|
  {
    if pieces == [] then Ok([])
    else
      var parts := SplitAround(pieces[0], ':');
      if |parts| < 2 then Err(IndexOutOfBounds(1, |parts|))
      else
        match ToAuthors(pieces[1..])
        case Err(e) => Err(e)
        case Ok(rest) => Ok([(parts[0], parts[1])] + rest)
  }

  /** `parseAuthors`: blank text gives no authors; otherwise one author per
      comma-separated piece, or the index error of the first piece without a colon. */
  function ParseAuthors(s: string): Result<seq<Author>, IndexError> {
    if !IsBlank(s) then ToAuthors(AuthorPieces(s)) else Ok([])
  }

  /** The parser returns no authors exactly for blank input; any other input
      gives at least one author or fails. */
  lemma ParseAuthorsEmptyExactlyWhenBlank(s: string)
    ensures ParseAuthors(s) == Ok([]) <==> IsBlank(s)
    ensures !IsBlank(s) && ParseAuthors(s).Ok? ==> |ParseAuthors(s).value| >= 1
  {
  }

  /** For non-blank input the authors are the comma-separated segments of the
      trimmed, brace-free text, one each and in order: author i is the first
      two colon parts of segment i, once the white space next to its commas is dropped. */
  lemma ParseAuthorsOnePerSegment(s: string)
    requires !IsBlank(s)
    ensures var segs := Segments(AuthorsText(s), ',');
      ParseAuthors(s).Ok? ==>
        && |ParseAuthors(s).value| == |segs|
        && forall i :: 0 <= i < |segs| ==>
             var piece := Around(segs[i], i > 0, i < |segs| - 1);
             && ':' in piece
             && ParseAuthors(s).value[i] == (SplitAround(piece, ':')[0], SplitAround(piece, ':')[1])
  {
    SplitAroundSegments(AuthorsText(s), ',');
  }

  /** Of a piece with colons, the name is the text before the first colon and
      the role the text between the first and the second (or the end); the
      rest is ignored, and white space next to the colons is dropped. */
  lemma AuthorFromPiece(piece: string)
    requires ':' in piece
    ensures var parts := Segments(piece, ':');
      && |parts| >= 2
      && SplitAround(piece, ':')[0] == RStripSpaces(parts[0])
      && SplitAround(piece, ':')[1] == Around(parts[1], true, |parts| > 2)
  {
    SplitAroundSegments(piece, ':');
    SegmentsCount(piece, ':');
  }

  /** The parser fails exactly when the input is not blank and some
      comma-separated segment has no colon. */
  lemma ParseAuthorsFailsExactly(s: string)
    ensures ParseAuthors(s).Err? <==>
      !IsBlank(s) && exists i :: 0 <= i < |Segments(AuthorsText(s), ',')| && ':' !in Segments(AuthorsText(s), ',')[i]
  {
    if !IsBlank(s) {
      var segs := Segments(AuthorsText(s), ',');
      SplitAroundSegments(AuthorsText(s), ',');
      forall i | 0 <= i < |segs| ensures ':' in AuthorPieces(s)[i] <==> ':' in segs[i] {
        AroundKeeps(segs[i], i > 0, i < |segs| - 1, ':');
      }
    }
  }

  /** Text that is only braces and white space around them fails: its single, empty or blank, segment has no colon. */
  lemma BracesOnlyFails(s: string)
    requires !IsBlank(s) && ':' !in AuthorsText(s) && ',' !in AuthorsText(s)
    ensures ParseAuthors(s) == Err(IndexOutOfBounds(1, 1))
  {
    SplitAroundNone(AuthorsText(s), ',');
  }

  /** A character absent from the input is absent from every piece of its split. */
  lemma {:induction false} SplitAroundLacks(s: string, sep: char, c: char)
    requires c !in s
    ensures forall i :: 0 <= i < |SplitAround(s, sep)| ==> c !in SplitAround(s, sep)[i]
    decreases |s|
  {
    match FindSeparator(s, sep)
    case None =>
    case Some(m) =>
      SplitAroundLacks(s[m.end..], sep, c);
  }

  /** No name or role contains a brace. */
  lemma ParseAuthorsNoBraces(s: string)
    ensures ParseAuthors(s).Ok? ==> forall i :: 0 <= i < |ParseAuthors(s).value| ==>
      && '{' !in ParseAuthors(s).value[i].0 && '}' !in ParseAuthors(s).value[i].0
      && '{' !in ParseAuthors(s).value[i].1 && '}' !in ParseAuthors(s).value[i].1
  {
    if !IsBlank(s) && ParseAuthors(s).Ok? {
      var pieces := AuthorPieces(s);
      SplitAroundLacks(AuthorsText(s), ',', '{');
      SplitAroundLacks(AuthorsText(s), ',', '}');
      forall i | 0 <= i < |pieces| ensures
        var parts := SplitAround(pieces[i], ':');
        |parts| >= 2 && '{' !in parts[0] && '}' !in parts[0] && '{' !in parts[1] && '}' !in parts[1]
      {
        SplitAroundLacks(pieces[i], ':', '{');
        SplitAroundLacks(pieces[i], ':', '}');
      }
    }
  }

  /** A character that is neither in `a`, nor in `b`, nor `d` is not in `a + [d] + b`. */
  lemma LacksJoined(a: string, d: char, b: string, c: char)
    requires c !in a && c !in b && c != d
    ensures c !in a + [d] + b
  {
    assert forall k :: 0 <= k < |a + [d] + b| ==> (a + [d] + b)[k] == (if k < |a| then a[k] else if k == |a| then d else b[k - |a| - 1]);
  }

  /** A single piece with a colon gives the one author made of its first two parts. */
  lemma ToAuthorsSingle(piece: string)
    requires ':' in piece
    ensures ToAuthors([piece]) == Ok([(SplitAround(piece, ':')[0], SplitAround(piece, ':')[1])])
  {
    var parts := SplitAround(piece, ':');
    assert [piece][1..] == [];
    assert [(parts[0], parts[1])] + [] == [(parts[0], parts[1])];
  }

  /** Two pieces with colons give their two authors, in order. */
  lemma ToAuthorsPair(first: string, second: string)
    requires ':' in first && ':' in second
    ensures ToAuthors([first, second]) == Ok([
      (SplitAround(first, ':')[0], SplitAround(first, ':')[1]),
      (SplitAround(second, ':')[0], SplitAround(second, ':')[1])])
  {
    assert [first, second][1..] == [second];
    ToAuthorsSingle(second);
    var a := (SplitAround(first, ':')[0], SplitAround(first, ':')[1]);
    var b := (SplitAround(second, ':')[0], SplitAround(second, ':')[1]);
    assert [a] + [b] == [a, b];
  }

  /** Text with neither separator nor brace in it. */
  predicate Plain(x: string) {
    ',' !in x && ':' !in x && '{' !in x && '}' !in x
  }

  /** Text that neither starts nor ends with regex white space. */
  predicate Unpadded(x: string) {
    x != [] ==> !IsRegexSpace(x[0]) && !IsRegexSpace(x[|x| - 1])
  }

  /** Text that is not blank at either end and holds no brace is split on
      commas as it stands: trimming and brace removal leave it alone. */
  lemma ParseCleanText(s: string)
    requires s != [] && !IsWhitespace(s[0]) && !IsWhitespace(s[|s| - 1])
    requires '{' !in s && '}' !in s
    ensures ParseAuthors(s) == ToAuthors(SplitAround(s, ','))
  {
    TrimKeeps(s);
    RemoveBracesKeeps(s);
  }

  /** `name:role` is a piece with no comma or brace whose colon split is [name, role]. */
  lemma AuthorEntry(name: string, role: string)
    requires Plain(name) && Plain(role) && Unpadded(name) && Unpadded(role)
    ensures var piece := name + [':'] + role;
      && ',' !in piece && '{' !in piece && '}' !in piece && ':' in piece
      && Unpadded(piece)
      && SplitAround(piece, ':') == [name, role]
  {
    var piece := name + [':'] + role;
    LacksJoined(name, ':', role, ',');
    LacksJoined(name, ':', role, '{');
    LacksJoined(name, ':', role, '}');
    assert piece[|name|] == ':';
    assert piece[0] == if name != [] then name[0] else ':';
    assert piece[|piece| - 1] == if role != [] then role[|role| - 1] else ':';
    SplitAroundOnce(name, ':', role);
    StripKeeps(name);
    StripKeeps(role);
  }

  /** A single author, a name and a role joined by one colon, parses back to
      that pair when neither part holds a separator or a brace, the text does
      not start or end with white space, and no regex white space touches the colon. */
  lemma ParseOneAuthor(name: string, role: string)
    requires Plain(name) && Plain(role) && Unpadded(name) && Unpadded(role)
    requires name != [] ==> !IsWhitespace(name[0])
    requires role != [] ==> !IsWhitespace(role[|role| - 1])
    ensures ParseAuthors(name + [':'] + role) == Ok([(name, role)])
  {
    var s := name + [':'] + role;
    AuthorEntry(name, role);
    assert s[0] == if name != [] then name[0] else ':';
    assert s[|s| - 1] == if role != [] then role[|role| - 1] else ':';
    ParseCleanText(s);
    SplitAroundNone(s, ',');
    ToAuthorsSingle(s);
  }

  /** Two comma-free pieces, with regex white space after the comma between
      them, split into exactly those two pieces. */
  lemma SplitTwoPieces(first: string, gap: string, second: string)
    requires ',' !in first && ',' !in second && Unpadded(first) && Unpadded(second)
    requires forall k :: 0 <= k < |gap| ==> IsRegexSpace(gap[k])
    ensures SplitAround(first + [','] + (gap + second), ',') == [first, second]
  {
    var rest := gap + second;
    SplitAroundFirst(first, ',', rest);
    var tail := SplitAround(LStripSpaces(rest), ',');
    SplitAfterGap(gap, second);
    assert tail == [second];
    StripKeeps(first);
    SingletonsJoin(RStripSpaces(first), second);
  }

  /** Two one-element sequences join into the two-element one. */
  lemma SingletonsJoin<T>(a: T, b: T)
    ensures [a] + [b] == [a, b]
  {
  }

  /** A comma-free piece behind regex white space is all that remains once the white space is dropped. */
  lemma SplitAfterGap(gap: string, second: string)
    requires ',' !in second && Unpadded(second)
    requires forall k :: 0 <= k < |gap| ==> IsRegexSpace(gap[k])
    ensures SplitAround(LStripSpaces(gap + second), ',') == [second]
  {
    LStripAfterSpaces(gap, second);
    SplitAroundNone(second, ',');
  }

  /** Regex white space holds no brace. */
  lemma SpacesLackBraces(gap: string)
    requires forall k :: 0 <= k < |gap| ==> IsRegexSpace(gap[k])
    ensures '{' !in gap && '}' !in gap
  {
  }

  /** Two authors separated by a comma, with any regex white space after the
      comma, parse back to the two pairs in order. */
  lemma ParseTwoAuthors(name1: string, role1: string, gap: string, name2: string, role2: string)
    requires Plain(name1) && Plain(role1) && Plain(name2) && Plain(role2)
    requires Unpadded(name1) && Unpadded(role1) && Unpadded(name2) && Unpadded(role2)
    requires name1 != [] ==> !IsWhitespace(name1[0])
    requires role2 != [] ==> !IsWhitespace(role2[|role2| - 1])
    requires forall k :: 0 <= k < |gap| ==> IsRegexSpace(gap[k])
    ensures ParseAuthors(name1 + [':'] + role1 + [','] + gap + name2 + [':'] + role2)
      == Ok([(name1, role1), (name2, role2)])
  {
    var first := name1 + [':'] + role1;
    var second := name2 + [':'] + role2;
    var rest := gap + second;
    var s := first + [','] + rest;
    assert s == name1 + [':'] + role1 + [','] + gap + name2 + [':'] + role2;
    AuthorEntry(name1, role1);
    AuthorEntry(name2, role2);
    assert s[0] == if name1 != [] then name1[0] else ':';
    assert s[|s| - 1] == if role2 != [] then role2[|role2| - 1] else ':';
    SpacesLackBraces(gap);
    LacksJoined(first, ',', rest, '{');
    LacksJoined(first, ',', rest, '}');
    ParseCleanText(s);
    SplitTwoPieces(first, gap, second);
    ToAuthorsPair(first, second);
  }

  /** Two authors after a comma and a space: the usual way the field is filled in. */
  lemma ParseAliceAndBob()
    ensures ParseAuthors("Alice:Owner, Bob:Dev") == Ok([("Alice", "Owner"), ("Bob", "Dev")])
  {
    assert "Alice:Owner, Bob:Dev" == "Alice" + [':'] + "Owner" + [','] + " " + "Bob" + [':'] + "Dev";
    ParseTwoAuthors("Alice", "Owner", " ", "Bob", "Dev");
  }

  /** The field's initial text, a user name followed by ":Owner", parses
      back to that one author, for a name without separators or braces that
      neither starts with white space nor ends with regex white space. */
  lemma DefaultValueParses(userName: string)
    requires Plain(userName)
    requires userName != [] ==> !IsWhitespace(userName[0]) && !IsRegexSpace(userName[|userName| - 1])
    ensures ParseAuthors(userName + ":Owner") == Ok([(userName, "Owner")])
  {
    assert userName + ":Owner" == userName + [':'] + "Owner";
    ParseOneAuthor(userName, "Owner");
  }

  /** The step's state: the text in the "Authors:" field. */
  class QuiltAuthorsStep {
    var value: string

    /** The field starts as the user's name with the role "Owner". */
    constructor (userName: string)
      ensures value == userName + ":Owner"
    {
      value := userName + ":Owner";
    }

    /** `setupProject`: the parsed authors are written to the bag; when the
        parser throws, nothing is written and the error is returned. */
    method SetupProject(data: WizardData.UserDataHolder) returns (outcome: Result<seq<Author>, IndexError>)
      modifies data
      ensures outcome == ParseAuthors(value)
      ensures outcome.Ok? ==> data.data == old(data.data)[WizardData.AuthorsKey := WizardData.AuthorsValue(outcome.value)]
      ensures outcome.Err? ==> data.data == old(data.data)
    {
      outcome := ParseAuthors(value);
      if outcome.Ok? {
        data.PutUserData(WizardData.AuthorsKey, WizardData.AuthorsValue(outcome.value));
      }
    }
  }
}
