/**
 The surgical removal of `server` blocks from a shared nginx file: the line scanner of
 internal/agent/executor.go with the primitives of internal/agent/nginx_inventory.go, proved
 against a description of the file as single lines and whole blocks.
 */
module ServerBlocks {
  import opened Model
  import opened Text

  // ----- Splitting and joining lines -----

  /** `strings.Split(text, "\n")`. */
  function Split(text: string): (lines: seq<string>)
    ensures lines != []
  {
    if text == "" then [""]
    else
      var rest := Split(text[1..]);
      if text[0] == '\n' then [""] + rest else [[text[0]] + rest[0]] + rest[1..]
  }

  /** `strings.Join(lines, "\n")`. */
  function Join(lines: seq<string>): string {
    if lines == [] then "" else if |lines| == 1 then lines[0] else lines[0] + "\n" + Join(lines[1..])
  }

  /** `strings.ReplaceAll(text, "\r\n", "\n")`. */
  function Normalise(text: string): string {
    if |text| < 2 then text
    else if text[0] == '\r' && text[1] == '\n' then "\n" + Normalise(text[2..])
    else [text[0]] + Normalise(text[1..])
  }

  predicate EndsInNewline(text: string) {
    text != "" && text[|text| - 1] == '\n'
  }

  predicate Plain(lines: seq<string>) {
    forall line | line in lines :: '\n' !in line
  }

  lemma JoinFront(first: string, rest: seq<string>)
    requires rest != []
    ensures Join([first] + rest) == first + "\n" + Join(rest)
  {
    assert ([first] + rest)[1..] == rest;
  }

  lemma JoinInFirst(c: char, lines: seq<string>)
    requires lines != []
    ensures Join([[c] + lines[0]] + lines[1..]) == [c] + Join(lines)
  {
    if |lines| > 1 {
      JoinFront([c] + lines[0], lines[1..]);
    }
  }

  lemma {:induction false} JoinSplit(text: string)
    ensures Join(Split(text)) == text
  {
    if text != "" {
      JoinSplit(text[1..]);
      var rest := Split(text[1..]);
      if text[0] == '\n' { JoinFront("", rest); } else { JoinInFirst(text[0], rest); }
    }
  }

  lemma {:induction false} SplitIsPlain(text: string)
    ensures Plain(Split(text))
  {
    if text != "" {
      SplitIsPlain(text[1..]);
      var rest := Split(text[1..]);
      forall line | line in Split(text) ensures '\n' !in line {
        assert rest[0] in rest;
        if line in rest[1..] { assert line in rest; }
      }
    }
  }

  lemma {:induction false} SplitOne(line: string)
    requires '\n' !in line
    ensures Split(line) == [line]
  {
    if line != "" {
      SplitOne(line[1..]);
      assert line[0] != '\n' && [line[0]] + line[1..] == line;
    }
  }

  lemma {:induction false} SplitFront(line: string, text: string)
    requires '\n' !in line
    ensures Split(line + "\n" + text) == [line] + Split(text)
  {
    var whole := line + "\n" + text;
    if line == "" {
      assert whole[1..] == text;
    } else {
      SplitFront(line[1..], text);
      assert whole[1..] == line[1..] + "\n" + text && whole[0] == line[0];
      assert line[0] in line && [line[0]] + line[1..] == line;
      assert ([line[1..]] + Split(text))[1..] == Split(text);
    }
  }

  lemma {:induction false} SplitJoin(lines: seq<string>)
    requires lines != [] && Plain(lines)
    ensures Split(Join(lines)) == lines
  {
    assert lines[0] in lines;
    if |lines| == 1 {
      SplitOne(lines[0]);
    } else {
      assert Plain(lines[1..]) by { assert forall line | line in lines[1..] :: line in lines; }
      SplitJoin(lines[1..]);
      SplitFront(lines[0], Join(lines[1..]));
    }
  }

  /** A text ends in a newline exactly when its last line is empty and it has more than one. */
  lemma {:induction false} LastLine(lines: seq<string>)
    requires lines != [] && Plain(lines)
    ensures EndsInNewline(Join(lines)) <==> |lines| > 1 && lines[|lines| - 1] == ""
  {
    assert lines[0] in lines;
    if |lines| > 1 {
      assert Plain(lines[1..]) by { assert forall line | line in lines[1..] :: line in lines; }
      LastLine(lines[1..]);
      var rest := Join(lines[1..]);
      assert rest == "" ==> |lines| == 2 && lines[1] == "" by { if |lines| > 2 { assert '\n' in rest; } }
    }
  }

  // ----- The primitives of the scanner -----

  function BeforeComment(line: string): string {
    if line == "" || line[0] == '#' then "" else [line[0]] + BeforeComment(line[1..])
  }

  /** `stripNginxComment`. */
  function StripComment(line: string): string {
    TrimSpace(BeforeComment(line))
  }

  function Count(line: string, c: char): nat {
    if line == "" then 0 else (if line[0] == c then 1 else 0) + Count(line[1..], c)
  }

  /** `braceDelta`. */
  function BraceDelta(line: string): int {
    Count(line, '{') - Count(line, '}')
  }

  /** The class `\s` of Go's regular expressions. */
  predicate IsPatternSpace(c: char) {
    c == ' ' || c == '\t' || c == '\n' || c == '\U{0C}' || c == '\r'
  }

  function SkipSpace(s: string): string {
    if s != "" && IsPatternSpace(s[0]) then SkipSpace(s[1..]) else s
  }

  /** `serverStartPattern`: optional space, `server`, optional space and an opening brace. */
  predicate StartsServer(cleaned: string) {
    var s := SkipSpace(cleaned);
    HasPrefix(s, "server") && HasPrefix(SkipSpace(s[6..]), "{")
  }

  /** The text before the first semicolon. */
  function BeforeSemicolon(s: string): Option<string> {
    if s == "" then None
    else if s[0] == ';' then Some("")
    else
      var rest := BeforeSemicolon(s[1..]);
      if rest.None? then None else Some([s[0]] + rest.value)
  }

  /** `serverNamePattern` where a line starts: what stands between `server_name` and its semicolon,
      a space and at least one character more. */
  function ServerNameHere(s: string): Option<string> {
    var t := SkipSpace(s);
    if !HasPrefix(t, "server_name") then None
    else
      var names := BeforeSemicolon(t[11..]);
      if names.Some? && |names.value| >= 2 && IsPatternSpace(names.value[0]) then names else None
  }

  function AfterNewline(s: string): (rest: Option<string>)
    ensures rest.Some? ==> |rest.value| < |s|
  {
    if s == "" then None else if s[0] == '\n' then Some(s[1..]) else AfterNewline(s[1..])
  }

  /** The leftmost match of the pattern: the names of the first `server_name` directive of a block. */
  function FirstServerName(s: string): Option<string>
    decreases |s|
  {
    if ServerNameHere(s).Some? then ServerNameHere(s)
    else
      var rest := AfterNewline(s);
      if rest.None? then None else FirstServerName(rest.value)
  }

  /** `strings.Fields`. */
  function Fields(s: string): seq<string> {
    if s == "" then []
    else if IsSpace(s[0]) then Fields(s[1..])
    else if |s| == 1 || IsSpace(s[1]) then [[s[0]]] + Fields(s[1..])
    else
      var rest := Fields(s[1..]);
      if rest == [] then [[s[0]]] else [[s[0]] + rest[0]] + rest[1..]
  }

  predicate IsQuote(c: char) {
    c == '"' || c == '\''
  }

  function TrimQuotes(s: string): string {
    if s != "" && IsQuote(s[0]) then TrimQuotes(s[1..])
    else if s != "" && IsQuote(s[|s| - 1]) then TrimQuotes(s[..|s| - 1])
    else s
  }

  /** `strings.ToLower` on ASCII. */
  function ToLower(s: string): string {
    seq(|s|, i requires 0 <= i < |s| => if 'A' <= s[i] <= 'Z' then s[i] + 32 as char else s[i])
  }

  /** `serverBlockNamesDomain`. */
  predicate NamesDomain(block: string, domain: string) {
    var names := FirstServerName(block);
    names.Some? && exists name | name in Fields(names.value) :: ToLower(TrimQuotes(name)) == domain
  }

  // ----- A file as lines and blocks -----

  predicate Opens(line: string) {
    StartsServer(StripComment(line))
  }

  /** Braces opened and not closed over some lines, comments aside. */
  function Depth(lines: seq<string>): int {
    if lines == [] then 0
    else Depth(lines[..|lines| - 1]) + BraceDelta(StripComment(lines[|lines| - 1]))
  }

  datatype Item = Line(raw: string) | Block(lines: seq<string>)

  /** Lines that start a server block and close it nowhere. */
  ghost predicate OpenBlock(lines: seq<string>) {
    lines != [] && Opens(lines[0]) && forall k | 0 < k <= |lines| :: Depth(lines[..k]) > 0
  }

  /** Lines that start a server block and close it with the last of them. */
  ghost predicate WholeBlock(lines: seq<string>) {
    && lines != [] && Opens(lines[0]) && Depth(lines) <= 0
    && forall k | 0 < k < |lines| :: Depth(lines[..k]) > 0
  }

  ghost predicate WellFormedItem(item: Item) {
    if item.Line? then !Opens(item.raw) else WholeBlock(item.lines)
  }

  ghost predicate WellFormed(items: seq<Item>) {
    forall item | item in items :: WellFormedItem(item)
  }

  function ItemLines(item: Item): seq<string> {
    if item.Line? then [item.raw] else item.lines
  }

  function Flatten(items: seq<Item>): seq<string> {
    if items == [] then [] else ItemLines(items[0]) + Flatten(items[1..])
  }

  /** The file, read as single lines outside and whole blocks: braces balance. */
  ghost predicate Segments(lines: seq<string>, items: seq<Item>) {
    WellFormed(items) && Flatten(items) == lines
  }

  /** A block whose first `server_name` lists the domain. */
  predicate Matches(item: Item, domain: string) {
    item.Block? && NamesDomain(Join(item.lines), domain)
  }

  function Kept(items: seq<Item>, domain: string): seq<Item> {
    if items == [] then []
    else (if Matches(items[0], domain) then [] else [items[0]]) + Kept(items[1..], domain)
  }

  function Matching(items: seq<Item>, domain: string): nat {
    if items == [] then 0 else (if Matches(items[0], domain) then 1 else 0) + Matching(items[1..], domain)
  }

  lemma {:induction false} KeptItems(items: seq<Item>, domain: string)
    ensures forall item :: item in Kept(items, domain) <==> item in items && !Matches(item, domain)
  {
    hide Matches;
    if items != [] { KeptItems(items[1..], domain); }
  }

  lemma {:induction false} FlattenAppend(items: seq<Item>, item: Item)
    ensures Flatten(items + [item]) == Flatten(items) + ItemLines(item)
  {
    if items != [] {
      assert (items + [item])[1..] == items[1..] + [item];
      FlattenAppend(items[1..], item);
    } else {
      assert [item][1..] == [];
    }
  }

  lemma {:induction false} KeptAppend(items: seq<Item>, item: Item, domain: string)
    ensures Kept(items + [item], domain) == Kept(items, domain) + if Matches(item, domain) then [] else [item]
    ensures Matching(items + [item], domain) == Matching(items, domain) + if Matches(item, domain) then 1 else 0
  {
    hide Matches;
    var last := if Matches(item, domain) then [] else [item];
    if items != [] {
      assert (items + [item])[1..] == items[1..] + [item] && (items + [item])[0] == items[0];
      KeptAppend(items[1..], item, domain);
      var first := if Matches(items[0], domain) then [] else [items[0]];
      assert Kept(items + [item], domain) == first + (Kept(items[1..], domain) + last);
    } else {
      assert items + [item] == [item] && [item][1..] == [];
      assert Kept([item], domain) == last;
    }
  }

  lemma {:induction false} KeepingAll(items: seq<Item>, domain: string)
    ensures Matching(items, domain) == 0 <==> forall item | item in items :: !Matches(item, domain)
    ensures Matching(items, domain) == 0 ==> Kept(items, domain) == items
  {
    hide Matches;
    if items != [] {
      KeepingAll(items[1..], domain);
      assert items == [items[0]] + items[1..];
    }
  }

  // ----- There is at most one way to read a file -----

  /** A block that has closed cannot be the start of a longer one. */
  lemma ClosedIsWhole(a: seq<string>, b: seq<string>)
    requires WholeBlock(a) && a <= b
    ensures !OpenBlock(b) && (WholeBlock(b) ==> a == b)
  {
    hide Opens, Depth;
    assert b[..|a|] == a;
    assert b[..|b|] == b;
  }

  /** Two items at the start of the same lines are the same item. */
  lemma SameStart(x: Item, y: Item, lines: seq<string>)
    requires WellFormedItem(x) && WellFormedItem(y) && ItemLines(x) <= lines && ItemLines(y) <= lines
    ensures x == y
  {
    hide Opens, Depth;
    var a, b := ItemLines(x), ItemLines(y);
    assert a[0] == lines[0] == b[0];
    if x.Block? && y.Block? {
      if |a| <= |b| {
        assert a <= b;
        ClosedIsWhole(a, b);
      } else {
        assert b <= a;
        ClosedIsWhole(b, a);
      }
    }
  }

  lemma FlattenFront(items: seq<Item>)
    requires items != [] && WellFormed(items)
    ensures WellFormedItem(items[0]) && WellFormed(items[1..]) && ItemLines(items[0]) != []
    ensures ItemLines(items[0]) <= Flatten(items) && Flatten(items[1..]) == Flatten(items)[|ItemLines(items[0])|..]
  {
    hide Opens, Depth;
    assert items[0] in items && forall item | item in items[1..] :: item in items;
  }

  /** Two readings of the same lines are the same reading. */
  lemma {:induction false} OneReading(items: seq<Item>, other: seq<Item>)
    requires WellFormed(items) && WellFormed(other) && Flatten(items) == Flatten(other)
    ensures items == other
  {
    hide WellFormed, WellFormedItem, Flatten, ItemLines;
    if items != [] { FlattenFront(items); }
    if other != [] { FlattenFront(other); }
    FlattenNothing();
    if items != [] && other != [] {
      SameStart(items[0], other[0], Flatten(items));
      OneReading(items[1..], other[1..]);
    }
  }

  lemma FlattenNothing()
    ensures Flatten([]) == []
  {
  }

  /** Where one reading is followed by more lines, another reading goes on to read those. */
  lemma {:induction false} ReadingGoesOn(items: seq<Item>, block: seq<string>, other: seq<Item>) returns (rest: seq<Item>)
    requires WellFormed(items) && WellFormed(other) && Flatten(other) == Flatten(items) + block
    ensures WellFormed(rest) && Flatten(rest) == block
    decreases |items|
  {
    hide WellFormed, WellFormedItem, Flatten, ItemLines;
    FlattenNothing();
    if items == [] {
      rest := other;
    } else {
      FlattenFront(items);
      var lines := Flatten(other);
      assert other != [];
      FlattenFront(other);
      SameStart(items[0], other[0], lines);
      var n := |ItemLines(items[0])|;
      assert Flatten(other[1..]) == lines[n..] == Flatten(items)[n..] + block;
      rest := ReadingGoesOn(items[1..], block, other[1..]);
    }
  }

  /** A file that ends inside a block cannot be read. */
  lemma OpenEndHasNoReading(items: seq<Item>, block: seq<string>)
    requires WellFormed(items) && OpenBlock(block)
    ensures forall other :: !Segments(Flatten(items) + block, other)
  {
    hide Opens, Depth, WellFormed, Flatten;
    forall other ensures !Segments(Flatten(items) + block, other) {
      if Segments(Flatten(items) + block, other) {
        var rest := ReadingGoesOn(items, block, other);
        FlattenNothing();
        FlattenFront(rest);
        if rest[0].Block? { ClosedIsWhole(rest[0].lines, block); }
      }
    }
  }

  // ----- The scanner -----

  datatype Removal = Removal(text: string, removed: nat)

  /** The text made of the lines that are left, with the newline at the end of the original. */
  function Rejoined(lines: seq<string>, text: string): string {
    var result := Join(lines);
    if EndsInNewline(text) && !EndsInNewline(result) then result + "\n" else result
  }

  /** What the removal must return for a file that reads as `items`. */
  ghost predicate Removes(content: string, domain: string, items: seq<Item>, removal: Removal) {
    var text := Normalise(content);
    var name := ToLower(TrimSpace(domain));
    && Segments(Split(text), items)
    && removal == Removal(Rejoined(Flatten(Kept(items, name)), text), Matching(items, name))
  }

  /** No domain was given, or the braces of some server block are not closed. */
  ghost predicate Refuses(content: string, domain: string) {
    TrimSpace(domain) == "" || forall items :: !Segments(Split(Normalise(content)), items)
  }

  /** A block's lines so far, after one more line. */
  lemma BlockGrows(block: seq<string>, line: string)
    requires block == [] ==> Opens(line)
    requires block != [] ==> OpenBlock(block)
    ensures
      var longer := block + [line];
      if Depth(longer) <= 0 then WholeBlock(longer) else OpenBlock(longer)
  {
    hide Opens, Depth;
    var longer := block + [line];
    assert longer[..|block|] == block;
    assert longer[..|longer|] == longer;
    assert forall k | 0 < k <= |block| :: longer[..k] == block[..k];
  }

  /** The scanner's variables after some lines: a reading of all but the block that is still open,
      and what has been kept and counted of it. */
  ghost predicate Scanned(
    lines: seq<string>, items: seq<Item>, block: seq<string>, name: string, output: seq<string>, removed: nat)
  {
    && WellFormed(items) && Flatten(items) + block == lines
    && (block != [] ==> OpenBlock(block))
    && output == Flatten(Kept(items, name)) && removed == Matching(items, name)
  }

  /** One more item read. */
  lemma ItemScanned(
    lines: seq<string>, items: seq<Item>, item: Item, name: string, output: seq<string>, removed: nat)
    requires WellFormed(items) && WellFormedItem(item) && Flatten(items) + ItemLines(item) == lines
    requires output == Flatten(Kept(items, name)) && removed == Matching(items, name)
    ensures
      if Matches(item, name) then Scanned(lines, items + [item], [], name, output, removed + 1)
      else Scanned(lines, items + [item], [], name, output + ItemLines(item), removed)
  {
    hide WellFormedItem, Matches, Flatten, ItemLines, OpenBlock;
    FlattenAppend(items, item);
    KeptAppend(items, item, name);
    FlattenAppend(Kept(items, name), item);
    assert Kept(items, name) + [] == Kept(items, name) && lines + [] == lines;
  }

  /** One more line read. */
  lemma LineScanned(
    lines: seq<string>, items: seq<Item>, block: seq<string>, raw: string, name: string, output: seq<string>, removed: nat)
    requires Scanned(lines, items, block, name, output, removed)
    ensures
      if block == [] && !Opens(raw) then
        Scanned(lines + [raw], items + [Line(raw)], [], name, output + [raw], removed)
      else if Depth(block + [raw]) > 0 then
        Scanned(lines + [raw], items, block + [raw], name, output, removed)
      else if NamesDomain(Join(block + [raw]), name) then
        Scanned(lines + [raw], items + [Block(block + [raw])], [], name, output, removed + 1)
      else
        Scanned(lines + [raw], items + [Block(block + [raw])], [], name, output + (block + [raw]), removed)
  {
    hide Opens, Depth, NamesDomain, Flatten, Kept, Matching, OpenBlock, WholeBlock;
    var longer := block + [raw];
    assert lines + [raw] == Flatten(items) + longer;
    if block == [] && !Opens(raw) {
      ItemScanned(lines + [raw], items, Line(raw), name, output, removed);
    } else {
      BlockGrows(block, raw);
      if Depth(longer) <= 0 {
        ItemScanned(lines + [raw], items, Block(longer), name, output, removed);
      }
    }
  }

  /** removeServerBlocksForDomain: exactly the blocks that name the domain are left out, every other
      line stays in its place, and a file that ends inside a block is refused. */
  method RemoveServerBlocksForDomain(content: string, domain: string) returns (r: Option<Removal>)
    ensures r.None? <==> Refuses(content, domain)
    ensures r.Some? ==> exists items :: Removes(content, domain, items, r.value)
  {
    hide StripComment, NamesDomain, Depth, Normalise, ToLower, TrimSpace, BraceDelta, Opens, Scanned, Segments, Join, Split;
    var name := ToLower(TrimSpace(domain));
    LowerLength(TrimSpace(domain));
    if name == "" {
      return None;
    }
    var text := Normalise(content);
    var lines := Split(text);
    var output: seq<string>, block: seq<string>, depth, inBlock, removed := [], [], 0, false, 0;
    ghost var items: seq<Item> := [];
    NothingScanned(name);
    var i := 0;
    while i < |lines|
      invariant 0 <= i <= |lines| && removed >= 0
      invariant Scanned(lines[..i], items, block, name, output, removed)
      invariant inBlock == (block != []) && depth == Depth(block)
    {
      var raw := lines[i];
      assert lines[..i + 1] == lines[..i] + [raw];
      LineScanned(lines[..i], items, block, raw, name, output, removed);
      BraceStep(block, raw);
      if !inBlock && !Opens(raw) {
        output := output + [raw];
        items := items + [Line(raw)];
      } else {
        inBlock, block := true, block + [raw];
        depth := depth + BraceDelta(StripComment(raw));
        if depth <= 0 {
          if NamesDomain(Join(block), name) {
            removed := removed + 1;
          } else {
            output := output + block;
          }
          items := items + [Block(block)];
          block, inBlock, depth := [], false, 0;
        }
      }
      i := i + 1;
    }
    assert lines[..i] == lines;
    if inBlock {
      StopsInside(lines, items, block, name, output, removed);
      return None;
    }
    StopsOutside(lines, items, name, output, removed);
    var result := Join(output);
    if EndsInNewline(text) && !EndsInNewline(result) {
      result := result + "\n";
    }
    assert Removes(content, domain, items, Removal(result, removed));
    return Some(Removal(result, removed));
  }

  lemma NothingScanned(name: string)
    ensures Scanned([], [], [], name, [], 0) && Depth([]) == 0
  {
  }

  lemma BraceStep(block: seq<string>, raw: string)
    ensures Depth(block + [raw]) == Depth(block) + BraceDelta(StripComment(raw)) && Depth([]) == 0
  {
    assert (block + [raw])[..|block|] == block;
  }

  lemma StopsInside(lines: seq<string>, items: seq<Item>, block: seq<string>, name: string, output: seq<string>, removed: nat)
    requires Scanned(lines, items, block, name, output, removed) && block != []
    ensures forall other :: !Segments(lines, other)
  {
    hide Opens, Depth, WellFormed, OpenBlock, Segments;
    OpenEndHasNoReading(items, block);
    forall other ensures !Segments(lines, other) {
      assert !Segments(Flatten(items) + block, other);
    }
  }

  lemma StopsOutside(lines: seq<string>, items: seq<Item>, name: string, output: seq<string>, removed: nat)
    requires Scanned(lines, items, [], name, output, removed)
    ensures Segments(lines, items) && output == Flatten(Kept(items, name)) && removed == Matching(items, name)
  {
    hide WellFormed;
    assert Flatten(items) + [] == Flatten(items);
  }

  lemma LowerLength(s: string)
    ensures |ToLower(s)| == |s|
  {
  }

  /** The outcome as a function: refused, or the one result. */
  ghost function Surgery(content: string, domain: string): (r: Option<Removal>)
    ensures r.None? <==> Refuses(content, domain)
    ensures r.Some? ==> exists items :: Removes(content, domain, items, r.value)
  {
    if Refuses(content, domain) then None
    else
      var items :| Segments(Split(Normalise(content)), items);
      var text, name := Normalise(content), ToLower(TrimSpace(domain));
      var removal := Removal(Rejoined(Flatten(Kept(items, name)), text), Matching(items, name));
      assert Removes(content, domain, items, removal);
      Some(removal)
  }

  // ----- What the removal means for the text -----

  /** For a domain the outcome is determined: a file is refused, or there is one reading and one result. */
  lemma RemovalIsUnique(content: string, domain: string, items: seq<Item>, other: seq<Item>, r: Removal, q: Removal)
    requires Removes(content, domain, items, r) && Removes(content, domain, other, q)
    ensures items == other && r == q
  {
    hide WellFormed, Kept, Matching, Rejoined, Split, Normalise, ToLower;
    OneReading(items, other);
  }

  /** Nothing is counted as removed exactly when no block names the domain, and then the text is the
      input with its line ends normalised. */
  lemma NothingRemoved(content: string, domain: string, items: seq<Item>, r: Removal)
    requires Removes(content, domain, items, r)
    ensures r.removed == 0 <==> forall item | item in items :: !Matches(item, ToLower(TrimSpace(domain)))
    ensures r.removed == 0 ==> r.text == Normalise(content)
  {
    hide Matches, Normalise, Split, Join, WellFormed, Flatten;
    KeepingAll(items, ToLower(TrimSpace(domain)));
    JoinSplit(Normalise(content));
  }

  /** An empty line closes no block. */
  lemma ClosingLine(block: seq<string>)
    requires WholeBlock(block)
    ensures block[|block| - 1] != ""
  {
    hide TrimSpace, StripComment, BraceDelta, StartsServer;
    EmptyLine();
    if |block| > 1 {
      assert Depth(block[..|block| - 1]) > 0;
    }
  }

  lemma EmptyLine()
    ensures !Opens("") && BraceDelta(StripComment("")) == 0
  {
    assert TrimSpace("") == "";
  }

  lemma KeptFront(items: seq<Item>, name: string)
    requires items != []
    ensures
      Flatten(Kept(items, name))
      == (if Matches(items[0], name) then [] else ItemLines(items[0])) + Flatten(Kept(items[1..], name))
  {
    hide Matches, ItemLines;
    var kept := Kept(items[1..], name);
    assert ([items[0]] + kept)[1..] == kept && [] + kept == kept;
  }

  /** The empty line that ends a text belongs to no block, so it is kept. */
  lemma {:induction false} LastLineIsKept(items: seq<Item>, name: string)
    requires WellFormed(items) && Flatten(items) != [] && Flatten(items)[|Flatten(items)| - 1] == ""
    ensures var kept := Flatten(Kept(items, name)); kept != [] && kept[|kept| - 1] == ""
  {
    hide Matches, WellFormed, WellFormedItem, Flatten, Kept;
    FlattenNothing();
    FlattenFront(items);
    KeptFront(items, name);
    var first, rest := ItemLines(items[0]), Flatten(items[1..]);
    assert Flatten(items) == first + rest;
    if rest == [] {
      assert first[|first| - 1] == "";
      if items[0].Block? { BlockOfItem(items[0]); ClosingLine(items[0].lines); }
      LineIsKept(items[0], name);
      KeptNothing(items[1..], name);
    } else {
      LastLineIsKept(items[1..], name);
    }
  }

  lemma KeptNothing(items: seq<Item>, name: string)
    requires WellFormed(items) && Flatten(items) == []
    ensures Flatten(Kept(items, name)) == []
  {
    hide Matches, WellFormedItem;
    if items != [] { FlattenFront(items); }
  }

  lemma BlockOfItem(item: Item)
    requires WellFormedItem(item) && item.Block?
    ensures WholeBlock(item.lines)
  {
  }

  lemma LineIsKept(item: Item, name: string)
    requires item.Line?
    ensures !Matches(item, name)
  {
  }

  /** The lines that the result has when it is read again: those that were kept, and after a
      removal that left no line, or only the empty one that ends the text, one empty line more. */
  lemma LinesOfResult(content: string, domain: string, items: seq<Item>, r: Removal)
    requires Removes(content, domain, items, r)
    ensures
      var kept := Flatten(Kept(items, ToLower(TrimSpace(domain))));
      Split(r.text) == kept || Split(r.text) == kept + [""]
  {
    hide WellFormed, Kept, Matching, ToLower, Normalise, TrimSpace;
    var text, name := Normalise(content), ToLower(TrimSpace(domain));
    var lines, kept := Split(text), Flatten(Kept(items, name));
    SplitIsPlain(text);
    JoinSplit(text);
    LastLine(lines);
    if EndsInNewline(text) { LastLineIsKept(items, name); }
    KeptIsPlain(items, name);
    if kept != [] {
      SplitJoin(kept);
      LastLine(kept);
      if Join(kept) != r.text {
        assert kept == [""];
        assert r.text == "\n";
        assert Split("\n") == [""] + Split("");
      }
    }
  }

  lemma {:induction false} KeptIsPlain(items: seq<Item>, name: string)
    requires Plain(Flatten(items))
    ensures Plain(Flatten(Kept(items, name)))
  {
    hide Matches;
    if items != [] {
      assert forall line | line in Flatten(items[1..]) :: line in Flatten(items);
      assert forall line | line in ItemLines(items[0]) :: line in Flatten(items);
      KeptIsPlain(items[1..], name);
      KeptFront(items, name);
    }
  }

  /** Read again, the result has no block that names the domain. */
  lemma ResultHasNoMatch(content: string, domain: string, items: seq<Item>, r: Removal) returns (again: seq<Item>)
    requires Removes(content, domain, items, r)
    ensures Segments(Split(r.text), again)
    ensures forall item | item in again :: !Matches(item, ToLower(TrimSpace(domain)))
  {
    hide Matches, Normalise, Split, ToLower, TrimSpace, Rejoined, WellFormedItem;
    var name := ToLower(TrimSpace(domain));
    again := Kept(items, name);
    KeptItems(items, name);
    LinesOfResult(content, domain, items, r);
    if Split(r.text) != Flatten(again) {
      FlattenAppend(again, Line(""));
      EmptyItem(name);
      again := again + [Line("")];
    }
  }

  lemma EmptyItem(name: string)
    ensures WellFormedItem(Line("")) && !Matches(Line(""), name)
  {
    EmptyLine();
  }

  predicate HasCarriageReturn(text: string) {
    exists i | 0 < i < |text| :: text[i - 1] == '\r' && text[i] == '\n'
  }

  lemma {:induction false} NormaliseShrinks(text: string)
    ensures |Normalise(text)| <= |text|
    ensures Normalise(text) == text <==> !HasCarriageReturn(text)
    ensures HasCarriageReturn(text) ==> |Normalise(text)| < |text|
  {
    if |text| >= 2 {
      if text[0] == '\r' && text[1] == '\n' {
        NormaliseShrinks(text[2..]);
        assert text[1 - 1] == '\r' && text[1] == '\n';
      } else {
        var rest := text[1..];
        NormaliseShrinks(rest);
        if HasCarriageReturn(rest) {
          var i :| 0 < i < |rest| && rest[i - 1] == '\r' && rest[i] == '\n';
          assert text[i + 1 - 1] == '\r' && text[i + 1] == '\n';
        }
        if HasCarriageReturn(text) {
          var i :| 0 < i < |text| && text[i - 1] == '\r' && text[i] == '\n';
          assert i > 1 && rest[i - 1 - 1] == '\r' && rest[i - 1] == '\n';
        }
        assert [text[0]] + rest == text;
      }
    }
  }

  /** Removing the domain's blocks from the result changes nothing exactly when the result holds no CR LF. */
  lemma IdempotentIffNoReturn(content: string, domain: string, items: seq<Item>, r: Removal, again: seq<Item>, q: Removal)
    requires Removes(content, domain, items, r) && Removes(r.text, domain, again, q)
    ensures q == Removal(r.text, 0) <==> !HasCarriageReturn(r.text)
  {
    hide Matches, Split, Normalise, ToLower, TrimSpace, WellFormed, Kept, Matching, Flatten;
    NormaliseShrinks(r.text);
    if !HasCarriageReturn(r.text) {
      var readAgain := ResultHasNoMatch(content, domain, items, r);
      OneReading(again, readAgain);
      NothingRemoved(r.text, domain, again, q);
    } else {
      JoinSplit(Normalise(r.text));
      if q.removed == 0 { NothingRemoved(r.text, domain, again, q); }
    }
  }

  predicate EndsInReturn(line: string) {
    line != "" && line[|line| - 1] == '\r'
  }

  /** A line that ends in CR, with another line after it. */
  predicate HasReturnBeforeLast(lines: seq<string>) {
    exists i | 0 <= i < |lines| - 1 :: EndsInReturn(lines[i])
  }

  lemma ReturnInFront(line: string, rest: string)
    requires '\n' !in line
    ensures HasCarriageReturn(line + "\n" + rest) <==> EndsInReturn(line) || HasCarriageReturn(rest)
  {
    var text, n := line + "\n" + rest, |line| + 1;
    assert forall k | 0 <= k < |line| :: text[k] == line[k] && line[k] in line;
    if EndsInReturn(line) {
      assert text[n - 1 - 1] == '\r' && text[n - 1] == '\n';
    }
    if HasCarriageReturn(rest) {
      var i :| 0 < i < |rest| && rest[i - 1] == '\r' && rest[i] == '\n';
      assert text[n + i - 1] == '\r' && text[n + i] == '\n';
    }
    if HasCarriageReturn(text) {
      var i :| 0 < i < |text| && text[i - 1] == '\r' && text[i] == '\n';
      if i > n {
        assert rest[i - n - 1] == '\r' && rest[i - n] == '\n';
      }
    }
  }

  /** A text holds CR LF exactly when a line of it other than the last ends in CR. */
  lemma {:induction false} ReturnsAreLineEnds(lines: seq<string>)
    requires lines != [] && Plain(lines)
    ensures HasCarriageReturn(Join(lines)) <==> HasReturnBeforeLast(lines)
  {
    assert lines[0] in lines;
    if |lines| == 1 {
      forall i | 0 < i < |lines[0]| ensures lines[0][i] != '\n' {
        assert lines[0][i] in lines[0];
      }
    } else {
      var rest := lines[1..];
      assert Plain(rest) by { assert forall line | line in rest :: line in lines; }
      ReturnsAreLineEnds(rest);
      ReturnInFront(lines[0], Join(rest));
      if HasReturnBeforeLast(rest) {
        var i :| 0 <= i < |rest| - 1 && EndsInReturn(rest[i]);
        assert EndsInReturn(lines[i + 1]);
      }
      if HasReturnBeforeLast(lines) {
        var i :| 0 <= i < |lines| - 1 && EndsInReturn(lines[i]);
        if i > 0 { assert EndsInReturn(rest[i - 1]); }
      }
    }
  }

  /** The text of the result, but for the newline that is added where only the last, empty line is left. */
  lemma TextOfResult(content: string, domain: string, items: seq<Item>, r: Removal)
    requires Removes(content, domain, items, r)
    ensures
      var kept := Flatten(Kept(items, ToLower(TrimSpace(domain))));
      Plain(kept) && (r.text == Join(kept) || (kept == [""] && r.text == "\n"))
  {
    hide WellFormed, Kept, Matching, ToLower, Normalise, TrimSpace;
    var text, name := Normalise(content), ToLower(TrimSpace(domain));
    var kept := Flatten(Kept(items, name));
    SplitIsPlain(text);
    JoinSplit(text);
    LastLine(Split(text));
    KeptIsPlain(items, name);
    if EndsInNewline(text) {
      LastLineIsKept(items, name);
      LastLine(kept);
    }
  }

  /** Removing the domain's blocks once more changes nothing exactly when, of the lines of the input that are kept,
      none but the last ends in CR after its line ends have been normalised. */
  lemma IdempotentIff(content: string, domain: string, items: seq<Item>, r: Removal, again: seq<Item>, q: Removal)
    requires Removes(content, domain, items, r) && Removes(r.text, domain, again, q)
    ensures q == Removal(r.text, 0) <==> !HasReturnBeforeLast(Flatten(Kept(items, ToLower(TrimSpace(domain)))))
  {
    hide Removes, Kept, Flatten, ToLower, TrimSpace;
    var kept := Flatten(Kept(items, ToLower(TrimSpace(domain))));
    IdempotentIffNoReturn(content, domain, items, r, again, q);
    TextOfResult(content, domain, items, r);
    if kept != [] { ReturnsAreLineEnds(kept); }
  }

  /** What is kept before the last kept line stands before the last line of the file. */
  lemma {:induction false} KeptBeforeLast(items: seq<Item>, name: string, i: nat) returns (j: nat)
    requires i < |Flatten(Kept(items, name))| - 1
    ensures j < |Flatten(items)| - 1 && Flatten(items)[j] == Flatten(Kept(items, name))[i]
  {
    hide Matches, Kept;
    assert items != [] by { KeptOfNothing(name); }
    KeptFront(items, name);
    var first, rest := ItemLines(items[0]), Flatten(items[1..]);
    var keptFirst := if Matches(items[0], name) then [] else first;
    var keptRest := Flatten(Kept(items[1..], name));
    assert Flatten(items) == first + rest;
    if i < |keptFirst| {
      j := i;
      if keptRest != [] { KeptIsNotMore(items[1..], name); }
    } else {
      var k := KeptBeforeLast(items[1..], name, i - |keptFirst|);
      j := |first| + k;
    }
  }

  lemma KeptOfNothing(name: string)
    ensures Flatten(Kept([], name)) == []
  {
  }

  lemma {:induction false} KeptIsNotMore(items: seq<Item>, name: string)
    ensures |Flatten(Kept(items, name))| <= |Flatten(items)|
  {
    hide Matches;
    if items != [] {
      KeptIsNotMore(items[1..], name);
      KeptFront(items, name);
    }
  }

  /** So an input in which no CR stands before a CR LF is treated the same by a second removal. */
  lemma IdempotentWithoutDoubleReturn(
    content: string, domain: string, items: seq<Item>, r: Removal, again: seq<Item>, q: Removal)
    requires Removes(content, domain, items, r) && Removes(r.text, domain, again, q) && !HasDoubleReturn(content)
    ensures q == Removal(r.text, 0)
  {
    hide Kept, Flatten, ToLower, TrimSpace, HasDoubleReturn, Normalise, Split, HasCarriageReturn, Matching;
    var text, name := Normalise(content), ToLower(TrimSpace(domain));
    var kept := Flatten(Kept(items, name));
    NormaliseLeavesNoReturn(content);
    JoinSplit(text);
    SplitIsPlain(text);
    ReturnsAreLineEnds(Split(text));
    forall i | 0 <= i < |kept| - 1 ensures !EndsInReturn(kept[i]) {
      var j := KeptBeforeLast(items, name, i);
      assert !EndsInReturn(Split(text)[j]);
    }
    IdempotentIff(content, domain, items, r, again, q);
  }

  predicate HasDoubleReturn(text: string) {
    exists i | 1 < i < |text| :: text[i - 2] == '\r' && text[i - 1] == '\r' && text[i] == '\n'
  }

  lemma {:induction false} FirstNormalised(text: string)
    requires text != ""
    ensures Normalise(text) != ""
    ensures Normalise(text)[0] == if |text| > 1 && text[0] == '\r' && text[1] == '\n' then '\n' else text[0]
  {
  }

  lemma TailHasNoDouble(text: string, k: nat)
    requires !HasDoubleReturn(text) && k <= |text|
    ensures !HasDoubleReturn(text[k..])
  {
    forall i | 1 < i < |text| - k
      ensures !(text[k..][i - 2] == '\r' && text[k..][i - 1] == '\r' && text[k..][i] == '\n')
    {
      assert text[k..][i - 2] == text[k + i - 2] && text[k..][i - 1] == text[k + i - 1] && text[k..][i] == text[k + i];
    }
  }

  /** Where no CR stands before a CR LF, normalising leaves no CR LF. */
  lemma {:induction false} NormaliseLeavesNoReturn(text: string)
    requires !HasDoubleReturn(text)
    ensures !HasCarriageReturn(Normalise(text))
  {
    if |text| >= 2 {
      if text[0] == '\r' && text[1] == '\n' {
        TailHasNoDouble(text, 2);
        NormaliseLeavesNoReturn(text[2..]);
        NewlineInFront('\n', Normalise(text[2..]));
      } else {
        TailHasNoDouble(text, 1);
        NormaliseLeavesNoReturn(text[1..]);
        FirstNormalised(text[1..]);
        assert text[0] == '\r' && |text| > 2 && text[1] == '\r' ==> text[2] != '\n' by {
          assert |text| > 2 ==> !(text[2 - 2] == '\r' && text[2 - 1] == '\r' && text[2] == '\n');
        }
        NewlineInFront(text[0], Normalise(text[1..]));
      }
    }
  }

  lemma NewlineInFront(c: char, text: string)
    requires !HasCarriageReturn(text) && (c == '\r' ==> text == "" || text[0] != '\n')
    ensures !HasCarriageReturn([c] + text)
  {
    var longer := [c] + text;
    forall i | 0 < i < |longer| ensures !(longer[i - 1] == '\r' && longer[i] == '\n') {
      if i > 1 { assert !(text[i - 1 - 1] == '\r' && text[i - 1] == '\n'); }
    }
  }

  lemma NormaliseExamples()
    ensures Normalise("\r\r\n") == "\r\n" && Normalise("\r\n") == "\n"
    ensures Split("\n") == ["", ""] && Split("\r\n") == ["\r", ""]
  {
    assert "\r\r\n"[1..] == "\r\n" && "\r\n"[2..] == "" && "\r\n"[1..] == "\n" && "\n"[1..] == "";
    assert Normalise("") == "" && Normalise("\r\n") == "\n" + Normalise("");
    assert Split("\n") == [""] + Split("");
    assert ["", ""][1..] == [""] && ['\r'] + "" == "\r";
    assert Split("\r\n") == [['\r'] + ""] + [""];
  }

  lemma TwoLines(a: string, b: string, name: string)
    requires !Opens(a) && !Opens(b)
    ensures var items := [Line(a), Line(b)];
      WellFormed(items) && Flatten(items) == [a, b] && Kept(items, name) == items && Matching(items, name) == 0
      && Join([a, b]) == a + "\n" + b
  {
    hide Opens, NamesDomain;
    assert [Line(a), Line(b)][1..] == [Line(b)] && [Line(b)][1..] == [] && [a, b][1..] == [b];
    assert Flatten([Line(b)]) == [b] && Kept([Line(b)], name) == [Line(b)] && Matching([Line(b)], name) == 0;
  }

  /** With a CR before a CR LF a second removal does change the text. */
  lemma SecondRemovalCanNormaliseAgain(domain: string)
    ensures Removes("\r\r\n", domain, [Line("\r"), Line("")], Removal("\r\n", 0))
    ensures Removes("\r\n", domain, [Line(""), Line("")], Removal("\n", 0))
  {
    hide ToLower, TrimSpace, Flatten, Kept, Matching, Normalise, Split, Join, Opens, WellFormed;
    BlankLines();
    NormaliseExamples();
    TwoLines("\r", "", ToLower(TrimSpace(domain)));
    TwoLines("", "", ToLower(TrimSpace(domain)));
    assert "\r" + "\n" + "" == "\r\n" && "" + "\n" + "" == "\n";
  }

  lemma BlankLines()
    ensures !Opens("") && !Opens("\r")
  {
    assert BeforeComment("\r") == "\r";
    assert TrimSpace("\r") == "" && TrimSpace("") == "";
  }

  /** The scanner computes the function. */
  lemma SurgeryIsTheResult(content: string, domain: string, r: Option<Removal>)
    requires r.None? <==> Refuses(content, domain)
    requires r.Some? ==> exists items :: Removes(content, domain, items, r.value)
    ensures r == Surgery(content, domain)
  {
    hide Surgery, Removes, Refuses;
    if r.Some? {
      var items :| Removes(content, domain, items, r.value);
      var other :| Removes(content, domain, other, Surgery(content, domain).value);
      RemovalIsUnique(content, domain, items, other, r.value, Surgery(content, domain).value);
    }
  }

  /** `onlyNginxWhitespace`: nothing but comments and space is left. */
  predicate OnlyWhitespace(text: string) {
    forall line | line in Split(text) :: StripComment(line) == ""
  }
}
