/**
 What the scanner of ServerBlocks recognises, said on the text itself: the opening of a server block,
 the braces of a line, and the names of a `server_name` directive.
 */
module Directives {
  import opened Model
  import opened Text
  import opened ServerBlocks

  // ----- Space -----

  predicate Blank(s: string) {
    forall c | c in s :: IsSpace(c)
  }

  /** Space as Go's regular expressions know it, which is less than what `strings.TrimSpace` removes. */
  predicate PatternBlank(s: string) {
    forall c | c in s :: IsPatternSpace(c)
  }

  lemma {:induction false} SkipsBlank(blank: string, rest: string)
    requires PatternBlank(blank)
    ensures SkipSpace(blank + rest) == SkipSpace(rest)
  {
    if blank == "" {
      assert blank + rest == rest;
    } else {
      assert (blank + rest)[0] == blank[0] && blank[0] in blank;
      assert (blank + rest)[1..] == blank[1..] + rest;
      SkipsBlank(blank[1..], rest);
    }
  }

  /** What SkipSpace leaves, and what it skips. */
  lemma {:induction false} Skipped(s: string) returns (blank: string)
    ensures s == blank + SkipSpace(s) && PatternBlank(blank)
    ensures SkipSpace(s) != "" ==> !IsPatternSpace(SkipSpace(s)[0])
  {
    if s != "" && IsPatternSpace(s[0]) {
      var rest := Skipped(s[1..]);
      blank := [s[0]] + rest;
      assert s == [s[0]] + s[1..];
    } else {
      blank := "";
      assert s == blank + s;
    }
  }

  lemma {:induction false} TrimmedLeft(s: string) returns (blank: string)
    ensures s == blank + TrimLeft(s) && Blank(blank)
    ensures TrimLeft(s) != "" ==> !IsSpace(TrimLeft(s)[0])
  {
    if s != "" && IsSpace(s[0]) {
      var rest := TrimmedLeft(s[1..]);
      blank := [s[0]] + rest;
      assert s == [s[0]] + s[1..];
    } else {
      blank := "";
      assert s == blank + s;
    }
  }

  lemma {:induction false} TrimmedRight(s: string) returns (blank: string)
    ensures s == TrimRight(s) + blank && Blank(blank)
    ensures TrimRight(s) != "" ==> !IsSpace(TrimRight(s)[|TrimRight(s)| - 1])
    decreases |s|
  {
    if s != "" && IsSpace(s[|s| - 1]) {
      var n := |s| - 1;
      var rest := TrimmedRight(s[..n]);
      blank := rest + [s[n]];
      assert s == s[..n] + [s[n]];
    } else {
      blank := "";
      assert s == s + blank;
    }
  }

  /** Trimming takes space away at both ends, and all of it. */
  lemma Trimmed(s: string) returns (left: string, right: string)
    ensures s == left + TrimSpace(s) + right && Blank(left) && Blank(right)
    ensures TrimSpace(s) != "" ==> !IsSpace(TrimSpace(s)[0]) && !IsSpace(TrimSpace(s)[|TrimSpace(s)| - 1])
  {
    left := TrimmedLeft(s);
    right := TrimmedRight(TrimLeft(s));
    var t := TrimSpace(s);
    assert TrimLeft(s) == t + right;
    assert t != "" ==> t[0] == TrimLeft(s)[0];
    assert s == left + (t + right) == left + t + right;
  }

  // ----- The opening of a block -----

  /** `server`, an opening brace, and only space before and between. */
  ghost predicate OpensAs(line: string, before: string, between: string, after: string) {
    line == before + "server" + between + "{" + after && Blank(before) && PatternBlank(between)
  }

  lemma {:induction false} CodeOf(line: string)
    ensures BeforeComment(line) <= line && '#' !in BeforeComment(line)
    ensures BeforeComment(line) != line ==> line[|BeforeComment(line)|] == '#'
  {
    if line != "" && line[0] != '#' {
      CodeOf(line[1..]);
      assert line == [line[0]] + line[1..];
    }
  }

  lemma {:induction false} CodeBefore(code: string, comment: string)
    requires '#' !in code
    ensures BeforeComment(code) == code && BeforeComment(code + "#" + comment) == code
  {
    var line := code + "#" + comment;
    if code != "" {
      assert code[0] in code && line[0] == code[0];
      assert line[1..] == code[1..] + "#" + comment;
      assert forall c | c in code[1..] :: c in code;
      CodeBefore(code[1..], comment);
      assert code == [code[0]] + code[1..];
    }
  }

  lemma StartsServerIff(s: string)
    requires s != "" ==> !IsSpace(s[0])
    ensures StartsServer(s) <==> exists between, after :: OpensAs(s, "", between, after)
  {
    assert SkipSpace(s) == s by {
      assert s != "" ==> !IsPatternSpace(s[0]);
    }
    if StartsServer(s) {
      var between := Skipped(s[6..]);
      var after := SkipSpace(s[6..])[1..];
      assert SkipSpace(s[6..]) == "{" + after;
      assert s == "server" + s[6..];
      assert "" + "server" + between + "{" + after == "server" + (between + ("{" + after));
      assert OpensAs(s, "", between, after);
    }
    if exists between, after :: OpensAs(s, "", between, after) {
      var between, after :| OpensAs(s, "", between, after);
      assert s == "server" + (between + ("{" + after));
      assert s[..6] == "server" && s[6..] == between + ("{" + after);
      SkipsBlank(between, "{" + after);
      assert SkipSpace("{" + after) == "{" + after;
      assert ("{" + after)[..1] == "{";
    }
  }

  /** A line opens a block exactly if, comments aside, it is space, `server`, space and an opening brace. */
  lemma OpensIff(line: string)
    ensures Opens(line) <==>
      exists before, between, after :: OpensAs(line, before, between, after) && '#' !in before + between
  {
    hide OpensAs, Opens;
    if Opens(line) {
      var before, between, after := OpeningForm(line);
    }
    if exists before, between, after :: OpensAs(line, before, between, after) && '#' !in before + between {
      var before, between, after :| OpensAs(line, before, between, after) && '#' !in before + between;
      CodeOpens(line, before, between, after);
    }
  }

  lemma OpeningForm(line: string) returns (before: string, between: string, after: string)
    requires Opens(line)
    ensures OpensAs(line, before, between, after) && '#' !in before + between
  {
    hide StartsServer, BeforeComment, TrimSpace;
    var code, cleaned := BeforeComment(line), StripComment(line);
    CodeOf(line);
    var left, right := Trimmed(code);
    StartsServerIff(cleaned);
    var space, rest :| OpensAs(cleaned, "", space, rest);
    before, between, after := left, space, rest + right + line[|code|..];
    Reassociate(line, code, left, cleaned, right, space, rest);
    NotInPart(code, left, "server" + space + "{" + rest + right);
    NotInPart("server" + space + "{" + rest + right, "server" + space, "{" + rest + right);
  }

  lemma NotInPart(whole: string, first: string, second: string)
    requires '#' !in whole && whole == first + second
    ensures '#' !in first && '#' !in second
  {
    assert forall c | c in first || c in second :: c in whole;
  }

  lemma Reassociate(line: string, code: string, left: string, cleaned: string, right: string, space: string, rest: string)
    requires code <= line && code == left + cleaned + right && cleaned == "" + "server" + space + "{" + rest
    ensures line == left + "server" + space + "{" + (rest + right + line[|code|..])
    ensures code == left + ("server" + space + "{" + rest + right)
    ensures "server" + space + "{" + rest + right == ("server" + space) + ("{" + rest + right)
  {
    assert line == code + line[|code|..];
  }

  lemma CodeOpens(line: string, before: string, between: string, after: string)
    requires OpensAs(line, before, between, after) && '#' !in before + between
    ensures Opens(line)
  {
    hide StartsServer, BeforeComment;
    var tail := BeforeComment(after);
    var rest := "server" + between + "{" + tail;
    CodeOfOpening(line, before, between, after);
    TrimsFront(before, rest);
    KeepsBrace("server" + between, tail);
    var cleaned := StripComment(line);
    assert cleaned == TrimRight(rest);
    StartsWithOpening(cleaned, between);
  }

  lemma CodeOfOpening(line: string, before: string, between: string, after: string)
    requires OpensAs(line, before, between, after) && '#' !in before + between
    ensures BeforeComment(line) == before + ("server" + between + "{" + BeforeComment(after))
  {
    hide BeforeComment;
    var front := before + "server" + between + "{";
    assert '#' !in front by {
      assert forall c | c in front :: c in before + between || c in "server{";
    }
    assert line == front + after;
    CodeFront(front, after);
  }

  lemma StartsWithOpening(cleaned: string, between: string)
    requires "server" + between + "{" <= cleaned && PatternBlank(between)
    ensures StartsServer(cleaned)
  {
    var end := cleaned[|"server" + between + "{"|..];
    assert cleaned == "" + "server" + between + "{" + end;
    assert OpensAs(cleaned, "", between, end);
    assert cleaned[0] == 's';
    StartsServerIff(cleaned);
  }

  lemma {:induction false} CodeFront(front: string, rest: string)
    requires '#' !in front
    ensures BeforeComment(front + rest) == front + BeforeComment(rest)
  {
    if front == "" {
      assert front + rest == rest;
    } else {
      assert front[0] in front && (front + rest)[0] == front[0];
      assert (front + rest)[1..] == front[1..] + rest;
      assert forall c | c in front[1..] :: c in front;
      CodeFront(front[1..], rest);
      assert front == [front[0]] + front[1..];
    }
  }

  lemma {:induction false} TrimsFront(blank: string, rest: string)
    requires Blank(blank) && rest != "" && !IsSpace(rest[0])
    ensures TrimLeft(blank + rest) == rest
  {
    if blank == "" {
      assert blank + rest == rest;
    } else {
      assert (blank + rest)[0] == blank[0] && blank[0] in blank;
      assert (blank + rest)[1..] == blank[1..] + rest;
      assert forall c | c in blank[1..] :: c in blank;
      TrimsFront(blank[1..], rest);
    }
  }

  /** Trimming on the right stops at the brace. */
  lemma {:induction false} KeepsBrace(front: string, tail: string)
    ensures front + "{" <= TrimRight(front + "{" + tail)
    decreases |tail|
  {
    var s := front + "{" + tail;
    if tail == "" {
      assert s[|s| - 1] == '{';
      assert TrimRight(s) == s;
    } else if IsSpace(s[|s| - 1]) {
      assert s[..|s| - 1] == front + "{" + tail[..|tail| - 1];
      KeepsBrace(front, tail[..|tail| - 1]);
    }
  }

  /** What is commented out opens nothing. */
  lemma CommentedOpensNothing(blank: string, rest: string)
    requires Blank(blank)
    ensures !Opens(blank + "#" + rest)
  {
    assert '#' !in blank;
    CodeBefore(blank, rest);
    TrimsAll(blank);
  }

  lemma {:induction false} TrimsAll(blank: string)
    requires Blank(blank)
    ensures TrimLeft(blank) == ""
  {
    if blank != "" {
      assert blank[0] in blank && forall c | c in blank[1..] :: c in blank;
      TrimsAll(blank[1..]);
    }
  }

  /** Space, or space and a comment. */
  ghost predicate SaysNothing(line: string) {
    Blank(line) || exists blank, comment :: Blank(blank) && line == blank + "#" + comment
  }

  lemma SaysNothingIff(line: string)
    ensures StripComment(line) == "" <==> SaysNothing(line)
  {
    var code := BeforeComment(line);
    CodeOf(line);
    if StripComment(line) == "" {
      var left, right := Trimmed(code);
      assert Blank(code);
      if code != line {
        assert line == code + "#" + line[|code| + 1..];
      }
    }
    if Blank(line) {
      assert '#' !in line;
      CodeBefore(line, "");
      TrimsAll(line);
    } else if SaysNothing(line) {
      var blank, comment :| Blank(blank) && line == blank + "#" + comment;
      assert '#' !in blank;
      CodeBefore(blank, comment);
      TrimsAll(blank);
    }
  }

  /** A file counts as empty exactly if every line is space or comment. */
  lemma OnlyWhitespaceIff(text: string)
    ensures OnlyWhitespace(text) <==> forall line | line in Split(text) :: SaysNothing(line)
  {
    hide StripComment, SaysNothing;
    forall line ensures StripComment(line) == "" <==> SaysNothing(line) {
      SaysNothingIff(line);
    }
  }

  // ----- Braces -----

  lemma {:induction false} CountIsMultiplicity(line: string, c: char)
    ensures Count(line, c) == multiset(line)[c]
  {
    if line != "" {
      CountIsMultiplicity(line[1..], c);
      assert line == [line[0]] + line[1..];
    }
  }

  lemma BlankHoldsNoBrace(blank: string)
    requires Blank(blank)
    ensures multiset(blank)['{'] == 0 && multiset(blank)['}'] == 0
  {
    assert '{' !in blank && '}' !in blank;
  }

  /** The depth of a line counts the braces before the comment and no other. */
  lemma BracesBeforeComment(code: string, comment: string)
    requires '#' !in code
    ensures
      var braces := multiset(code)['{'] as int - multiset(code)['}'] as int;
      Depth([code]) == braces && Depth([code + "#" + comment]) == braces
  {
    CodeBefore(code, comment);
    var left, right := Trimmed(code);
    var cleaned := TrimSpace(code);
    assert multiset(code) == multiset(left) + multiset(cleaned) + multiset(right);
    BlankHoldsNoBrace(left);
    BlankHoldsNoBrace(right);
    CountIsMultiplicity(cleaned, '{');
    CountIsMultiplicity(cleaned, '}');
    OneLineDepth(code);
    OneLineDepth(code + "#" + comment);
  }

  lemma OneLineDepth(line: string)
    ensures Depth([line]) == BraceDelta(StripComment(line))
  {
    assert [line][..0] == [];
    assert Depth([]) == 0;
  }

  /** The depth of lines is the sum of theirs. */
  lemma {:induction false} DepthAdds(lines: seq<string>, more: seq<string>)
    ensures Depth(lines + more) == Depth(lines) + Depth(more)
    decreases |more|
  {
    if more == [] {
      assert lines + more == lines;
    } else {
      var n := |more| - 1;
      assert (lines + more)[..|lines| + n] == lines + more[..n];
      DepthAdds(lines, more[..n]);
    }
  }

  // ----- The names of a directive -----

  ghost predicate BeginsDirective(line: string) {
    exists before, after :: line == before + "server_name" + after && PatternBlank(before)
  }

  lemma BeginsIff(line: string)
    ensures BeginsDirective(line) <==> HasPrefix(SkipSpace(line), "server_name")
  {
    hide IsPatternSpace, SkipSpace;
    if HasPrefix(SkipSpace(line), "server_name") {
      var before := Skipped(line);
      var after := SkipSpace(line)[11..];
      assert SkipSpace(line) == "server_name" + after;
      assert line == before + "server_name" + after;
    }
    if BeginsDirective(line) {
      var before, after :| line == before + "server_name" + after && PatternBlank(before);
      assert line == before + ("server_name" + after);
      SkipsBlank(before, "server_name" + after);
      DirectiveIsPrefix(after);
    }
  }

  lemma DirectiveIsPrefix(after: string)
    ensures HasPrefix(SkipSpace("server_name" + after), "server_name")
  {
    var s := "server_name" + after;
    assert s[0] == 's' && s[..11] == "server_name";
  }

  /** Words between gaps: one gap before each word and one after the last. */
  function Spread(gaps: seq<string>, words: seq<string>): string
    requires |gaps| == |words| + 1
  {
    if words == [] then gaps[0] else gaps[0] + words[0] + Spread(gaps[1..], words[1..])
  }

  /** Gaps are space, and only the first and the last may be empty. */
  ghost predicate AreGaps(gaps: seq<string>) {
    && (forall gap | gap in gaps :: PatternBlank(gap))
    && forall i | 0 < i < |gaps| - 1 :: gaps[i] != ""
  }

  ghost predicate AreFields(words: seq<string>) {
    forall w | w in words :: w != "" && forall c | c in w :: !IsSpace(c)
  }

  lemma {:induction false} FieldsAfterBlank(blank: string, rest: string)
    requires PatternBlank(blank)
    ensures Fields(blank + rest) == Fields(rest)
  {
    if blank == "" {
      assert blank + rest == rest;
    } else {
      assert (blank + rest)[0] == blank[0] && blank[0] in blank;
      assert (blank + rest)[1..] == blank[1..] + rest;
      FieldsAfterBlank(blank[1..], rest);
    }
  }

  lemma {:induction false} FieldsOfWord(word: string, rest: string)
    requires word != "" && (forall c | c in word :: !IsSpace(c)) && (rest != "" ==> IsSpace(rest[0]))
    ensures Fields(word + rest) == [word] + Fields(rest)
  {
    var s := word + rest;
    assert word[0] in word && s[0] == word[0] && s[1..] == word[1..] + rest;
    if |word| == 1 {
      assert word == [word[0]] && s[1..] == rest;
    } else {
      assert word[1] in word && s[1] == word[1];
      assert forall c | c in word[1..] :: c in word;
      FieldsOfWord(word[1..], rest);
      assert [word[0]] + word[1..] == word;
    }
  }

  lemma {:induction false} FieldsOfSpread(gaps: seq<string>, words: seq<string>)
    requires |gaps| == |words| + 1 && AreGaps(gaps) && AreFields(words)
    ensures Fields(Spread(gaps, words)) == words
    decreases |words|
  {
    assert PatternBlank(gaps[0]) by { assert gaps[0] in gaps; }
    if words == [] {
      FieldsAfterBlank(gaps[0], "");
      assert gaps[0] + "" == gaps[0];
    } else {
      var rest := Spread(gaps[1..], words[1..]);
      assert Spread(gaps, words) == gaps[0] + (words[0] + rest);
      FieldsAfterBlank(gaps[0], words[0] + rest);
      SpreadStarts(gaps[1..], words[1..]);
      assert words[0] in words;
      assert gaps[1] in gaps;
      FieldsOfWord(words[0], rest);
      TailsAreGaps(gaps, words);
      FieldsOfSpread(gaps[1..], words[1..]);
    }
  }

  lemma TailsAreGaps(gaps: seq<string>, words: seq<string>)
    requires |gaps| == |words| + 1 && words != [] && AreGaps(gaps) && AreFields(words)
    ensures AreGaps(gaps[1..]) && AreFields(words[1..])
  {
    assert forall gap | gap in gaps[1..] :: gap in gaps;
    assert forall w | w in words[1..] :: w in words;
  }

  /** A spread is empty or begins with its first gap. */
  lemma SpreadStarts(gaps: seq<string>, words: seq<string>)
    requires |gaps| == |words| + 1 && PatternBlank(gaps[0]) && (words != [] ==> gaps[0] != "")
    ensures Spread(gaps, words) != "" ==> IsSpace(Spread(gaps, words)[0])
  {
    if Spread(gaps, words) != "" {
      assert Spread(gaps, words)[0] == gaps[0][0] && gaps[0][0] in gaps[0];
    }
  }

  lemma {:induction false} SemicolonEnds(names: string, rest: string)
    requires ';' !in names
    ensures BeforeSemicolon(names + ";" + rest) == Some(names)
  {
    var s := names + ";" + rest;
    if names != "" {
      assert names[0] in names && s[0] == names[0];
      assert s[1..] == names[1..] + ";" + rest;
      SemicolonEnds(names[1..], rest);
      assert [names[0]] + names[1..] == names;
    }
  }

  // ----- Which line of a block holds the directive -----

  /** Lines with their newlines. */
  function Lead(lines: seq<string>): string {
    if lines == [] then "" else lines[0] + "\n" + Lead(lines[1..])
  }

  /** In front of other lines this is what joining makes of them. */
  lemma {:induction false} LeadJoins(before: seq<string>, lines: seq<string>)
    requires lines != []
    ensures Join(before + lines) == Lead(before) + Join(lines)
  {
    if before == [] {
      assert before + lines == lines;
    } else {
      assert before + lines == [before[0]] + (before[1..] + lines);
      JoinFront(before[0], before[1..] + lines);
      LeadJoins(before[1..], lines);
      assert Lead(before) + Join(lines) == before[0] + "\n" + (Lead(before[1..]) + Join(lines));
    }
  }

  lemma {:induction false} NewlineEnds(line: string, rest: string)
    requires '\n' !in line
    ensures AfterNewline(line + "\n" + rest) == Some(rest)
  {
    var s := line + "\n" + rest;
    if line == "" {
      assert s[1..] == rest;
    } else {
      assert line[0] in line && s[0] == line[0];
      assert s[1..] == line[1..] + "\n" + rest;
      NewlineEnds(line[1..], rest);
    }
  }

  lemma NoNewlineLeft(line: string)
    requires '\n' !in line
    ensures AfterNewline(line) == None
  {
    if line != "" {
      assert line[0] in line && forall c | c in line[1..] :: c in line;
      NoNewlineLeft(line[1..]);
    }
  }

  /** A line that does not begin a directive is passed over; one of space alone adds nothing to what follows. */
  lemma LineIsPassed(line: string, rest: string)
    requires '\n' !in line && !BeginsDirective(line)
    ensures FirstServerName(line + "\n" + rest) == FirstServerName(rest)
  {
    var s := line + "\n" + rest;
    BeginsIff(line);
    NewlineEnds(line, rest);
    var before := Skipped(line);
    var left := SkipSpace(line);
    if left == "" {
      assert s == (before + "\n") + rest && PatternBlank(before + "\n");
      SkipsBlank(before + "\n", rest);
      assert ServerNameHere(s) == ServerNameHere(rest);
    } else {
      assert s == before + (left + "\n" + rest);
      SkipsBlank(before, left + "\n" + rest);
      assert SkipSpace(s) == left + "\n" + rest;
      NewlineBreaksName(left, rest);
    }
  }

  lemma NewlineBreaksName(left: string, rest: string)
    requires !HasPrefix(left, "server_name")
    ensures !HasPrefix(left + "\n" + rest, "server_name")
  {
    var s := left + "\n" + rest;
    if |left| >= 11 {
      assert s[..11] == left[..11];
    } else if |s| >= 11 {
      assert s[..11][|left|] == '\n' && '\n' !in "server_name";
    }
  }

  lemma {:induction false} LinesArePassed(before: seq<string>, rest: string)
    requires Plain(before) && forall line | line in before :: !BeginsDirective(line)
    ensures FirstServerName(Lead(before) + rest) == FirstServerName(rest)
  {
    hide BeginsDirective;
    if before == [] {
      assert Lead(before) + rest == rest;
    } else {
      assert before[0] in before && forall line | line in before[1..] :: line in before;
      LineIsPassed(before[0], Lead(before[1..]) + rest);
      LinesArePassed(before[1..], rest);
      assert Lead(before) + rest == before[0] + "\n" + (Lead(before[1..]) + rest);
    }
  }

  // ----- What is recognised -----

  /** No capital letters, as the domain has when blocks are compared with it. */
  predicate IsLower(domain: string) {
    forall c | c in domain :: !('A' <= c <= 'Z')
  }

  /** The same letters, where a capital counts as its small letter. */
  predicate SameLetters(word: string, domain: string) {
    |word| == |domain|
    && forall i | 0 <= i < |word| ::
         word[i] == domain[i] || ('A' <= word[i] <= 'Z' && domain[i] as int - word[i] as int == 'a' as int - 'A' as int)
  }

  lemma LowerIsSameLetters(word: string, domain: string)
    requires IsLower(domain)
    ensures ToLower(word) == domain <==> SameLetters(word, domain)
  {
    if SameLetters(word, domain) {
      forall i | 0 <= i < |word| ensures ToLower(word)[i] == domain[i] {
        assert domain[i] in domain;
      }
    }
  }

  predicate IsMark(quote: string) {
    quote == "" || quote == "\"" || quote == "'"
  }

  /** Words as written: each bare or between two quotes of a kind. */
  function Written(quotes: seq<string>, words: seq<string>): seq<string>
    requires |quotes| == |words|
  {
    seq(|words|, i requires 0 <= i < |words| => quotes[i] + words[i] + quotes[i])
  }

  /** Words free of space, quotes and semicolons. */
  ghost predicate AreNames(words: seq<string>) {
    forall w | w in words :: w != "" && forall c | c in w :: !IsSpace(c) && !IsQuote(c) && c != ';'
  }

  lemma TrimsQuotes(quote: string, word: string)
    requires IsMark(quote) && word != "" && forall c | c in word :: !IsQuote(c)
    ensures TrimQuotes(quote + word + quote) == word
  {
    assert word[0] in word && word[|word| - 1] in word;
    assert TrimQuotes(word) == word;
    if quote == "" {
      assert quote + word + quote == word;
    } else {
      var s := quote + word + quote;
      assert IsQuote(s[0]) && s[1..] == word + quote;
      var t := word + quote;
      assert t[0] == word[0] && IsQuote(t[|t| - 1]) && t[..|t| - 1] == word;
    }
  }

  lemma {:induction false} SpreadHoldsNoSemicolon(gaps: seq<string>, words: seq<string>)
    requires |gaps| == |words| + 1 && AreGaps(gaps) && forall w | w in words :: ';' !in w
    ensures ';' !in Spread(gaps, words)
    decreases |words|
  {
    assert gaps[0] in gaps && PatternBlank(gaps[0]);
    if words != [] {
      assert words[0] in words;
      assert forall gap | gap in gaps[1..] :: gap in gaps;
      assert forall w | w in words[1..] :: w in words;
      SpreadHoldsNoSemicolon(gaps[1..], words[1..]);
    }
  }

  /** The names that the directive is found to list, quotes included. */
  lemma DirectiveLists(before: seq<string>, indent: string, gaps: seq<string>, written: seq<string>, rest: string)
    requires Plain(before) && (forall line | line in before :: !BeginsDirective(line)) && PatternBlank(indent)
    requires |gaps| == |written| + 1 && AreGaps(gaps) && gaps[0] != "" && written != [] && AreFields(written)
    requires forall w | w in written :: ';' !in w
    ensures
      FirstServerName(Lead(before) + (indent + "server_name" + Spread(gaps, written) + ";" + rest)) ==
        Some(Spread(gaps, written))
  {
    hide BeginsDirective;
    var names := Spread(gaps, written);
    var directive := "server_name" + names + ";" + rest;
    var text := indent + "server_name" + names + ";" + rest;
    LinesArePassed(before, text);
    assert text == indent + directive;
    SkipsBlank(indent, directive);
    assert directive[0] == 's' && SkipSpace(directive) == directive;
    assert directive[..11] == "server_name" && directive[11..] == names + ";" + rest;
    SpreadHoldsNoSemicolon(gaps, written);
    SemicolonEnds(names, rest);
    assert gaps[0] in gaps && written[0] in written;
    assert names[0] == gaps[0][0] && gaps[0][0] in gaps[0];
    assert |names| >= |gaps[0]| + |written[0]|;
  }

  lemma WrittenAreFields(quotes: seq<string>, words: seq<string>)
    requires |quotes| == |words| && (forall q | q in quotes :: IsMark(q)) && AreNames(words)
    ensures AreFields(Written(quotes, words)) && forall w | w in Written(quotes, words) :: ';' !in w
  {
    forall w | w in Written(quotes, words) ensures w != "" && ';' !in w && forall c | c in w :: !IsSpace(c) {
      var i :| 0 <= i < |words| && w == quotes[i] + words[i] + quotes[i];
      assert quotes[i] in quotes && words[i] in words;
    }
  }

  /** A block is taken for the domain's exactly if its first `server_name` directive lists the domain, up to the case
      of letters, bare or quoted. */
  lemma NamesExactlyTheListed(
    before: seq<string>, indent: string, gaps: seq<string>, quotes: seq<string>, words: seq<string>, rest: string,
    domain: string)
    requires Plain(before) && (forall line | line in before :: !BeginsDirective(line)) && PatternBlank(indent)
    requires |quotes| == |words| && |gaps| == |words| + 1 && words != [] && AreNames(words)
    requires (forall q | q in quotes :: IsMark(q)) && AreGaps(gaps) && gaps[0] != "" && IsLower(domain)
    ensures
      var block := Lead(before) + (indent + "server_name" + Spread(gaps, Written(quotes, words)) + ";" + rest);
      NamesDomain(block, domain) <==> exists word | word in words :: SameLetters(word, domain)
  {
    hide BeginsDirective, Spread, AreGaps, Fields, ToLower, TrimQuotes, SameLetters, FirstServerName;
    var written := Written(quotes, words);
    WrittenAreFields(quotes, words);
    DirectiveLists(before, indent, gaps, written, rest);
    FieldsOfSpread(gaps, written);
    forall i | 0 <= i < |words| ensures ToLower(TrimQuotes(written[i])) == domain <==> SameLetters(words[i], domain) {
      assert quotes[i] in quotes && words[i] in words;
      TrimsQuotes(quotes[i], words[i]);
      LowerIsSameLetters(words[i], domain);
    }
    if exists word | word in words :: SameLetters(word, domain) {
      var i :| 0 <= i < |words| && SameLetters(words[i], domain);
      assert written[i] in written;
    }
    if exists name | name in written :: ToLower(TrimQuotes(name)) == domain {
      var i :| 0 <= i < |written| && ToLower(TrimQuotes(written[i])) == domain;
      assert words[i] in words;
    }
  }

  /** A block without such a line is nobody's. */
  lemma {:induction false} NothingListed(lines: seq<string>, domain: string)
    requires lines != [] && Plain(lines) && forall line | line in lines :: !BeginsDirective(line)
    ensures !NamesDomain(Join(lines), domain)
  {
    hide BeginsDirective;
    var n := |lines| - 1;
    var last := lines[n];
    assert lines == lines[..n] + [last] && last in lines;
    assert forall line | line in lines[..n] :: line in lines;
    LeadJoins(lines[..n], [last]);
    LinesArePassed(lines[..n], last);
    BeginsIff(last);
    NoNewlineLeft(last);
  }

  // ----- What becomes of a file -----

  /** A file is refused exactly if no domain is given or the file ends inside a block. */
  lemma RefusedIff(content: string, domain: string, items: seq<Item>, block: seq<string>)
    requires WellFormed(items) && (block != [] ==> OpenBlock(block)) && Split(Normalise(content)) == Flatten(items) + block
    ensures Surgery(content, domain).None? <==> Blank(domain) || block != []
  {
    hide WellFormed, OpenBlock, Flatten, Split, Normalise, Surgery;
    BlankIff(domain);
    if block == [] {
      assert Flatten(items) + [] == Flatten(items);
      assert Segments(Split(Normalise(content)), items);
    } else {
      OpenEndHasNoReading(items, block);
    }
    assert Surgery(content, domain).None? <==> Refuses(content, domain);
  }

  lemma BlankIff(s: string)
    ensures Blank(s) <==> TrimSpace(s) == ""
  {
    var left, right := Trimmed(s);
    assert TrimSpace(s) == "" ==> s == left + right;
    if Blank(s) { TrimsAll(s); }
  }

  /** Otherwise the blocks of the domain go, written in whatever case and with space around it, and are counted. */
  lemma DomainBlocksGo(content: string, domain: string, items: seq<Item>, name: string)
    requires Segments(Split(Normalise(content)), items) && !Blank(domain)
    requires IsLower(name) && SameLetters(TrimSpace(domain), name)
    ensures
      var removal := Surgery(content, domain);
      && removal.Some? && removal.value.text == Rejoined(Flatten(Kept(items, name)), Normalise(content))
      && removal.value.removed == Matching(items, name)
  {
    hide Split, Normalise, Rejoined, Flatten, Kept, Matching, WellFormed, TrimSpace, ToLower, SameLetters, Surgery;
    LowerIsSameLetters(TrimSpace(domain), name);
    BlankIff(domain);
    assert Surgery(content, domain).None? <==> Refuses(content, domain);
    var removal := Surgery(content, domain).value;
    var other :| Removes(content, domain, other, removal);
    OneReading(items, other);
  }
}
