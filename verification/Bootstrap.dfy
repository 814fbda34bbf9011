/**
 bootstrap.py: cuts the brace blocks out of a text with the regular expression "\{.*?\}" (dot matches every character),
 writes each to a numbered file, and writes an index page with one image per block. Files are a map from name to content.
 */
module Bootstrap {
  import opened Decimals

  // ---------------------------------------------------------------------------------------------------------
  // Extraction
  // ---------------------------------------------------------------------------------------------------------

  /** `c` does not occur in `s`. */
  predicate Free(s: string, c: char) {
    forall i | 0 <= i < |s| :: s[i] != c
  }

  /** The first place of `c` in `s`, or the length of `s`. */
  function Find(s: string, c: char): (n: nat)
    ensures n <= |s| && (n < |s| ==> s[n] == c)
    ensures forall i | 0 <= i < n :: s[i] != c
  {
    if s == [] || s[0] == c then 0 else 1 + Find(s[1..], c)
  }

  /** The leftmost match of the expression, as short as possible, with what is before and after it. */
  datatype Match = Match(text: string, block: string, rest: string) | NoMatch

  function Search(s: string): (m: Match)
    ensures m.Match? ==> |m.rest| < |s|
  {
    var open := Find(s, '{');
    var length := Find(s[open..], '}');
    if length == |s[open..]| then NoMatch
    else Match(s[..open], s[open..][..length + 1], s[open..][length + 1..])
  }

  /** `re.findall`: each match is looked for after the one before. */
  function FindAll(s: string): seq<string>
    decreases |s|
  {
    match Search(s)
    case NoMatch => []
    case Match(_, block, rest) => [block] + FindAll(rest)
  }

  /** A brace block: it ends at its first closing brace. */
  predicate IsBlock(b: string) {
    |b| >= 2 && b[0] == '{' && b[|b| - 1] == '}' && Free(b[..|b| - 1], '}')
  }

  /** No opening brace has a closing brace after it. */
  predicate NoBlock(s: string) {
    forall i, j | 0 <= i < j < |s| :: !(s[i] == '{' && s[j] == '}')
  }

  lemma FindFirst(s: string, c: char, n: nat)
    requires n <= |s| && (n < |s| ==> s[n] == c)
    requires forall i | 0 <= i < n :: s[i] != c
    ensures Find(s, c) == n
  {}

  lemma SearchFinds(text: string, block: string, rest: string)
    requires Free(text, '{') && IsBlock(block)
    ensures Search(text + block + rest) == Match(text, block, rest)
  {
    var s, tail := text + block + rest, block + rest;
    FindFirst(s, '{', |text|);
    assert s[|text|..] == tail && s[..|text|] == text;
    var n := |block| - 1;
    assert forall i | 0 <= i < n :: tail[i] == block[..n][i];
    FindFirst(tail, '}', n);
    assert tail[..n + 1] == block && tail[n + 1..] == rest;
  }

  lemma SearchFindsNone(s: string)
    requires NoBlock(s)
    ensures Search(s) == NoMatch
  {
    var open := Find(s, '{');
    assert forall j | 0 <= j < |s[open..]| :: s[open..][j] == s[open + j];
  }

  lemma SearchMisses(s: string)
    requires Search(s) == NoMatch
    ensures NoBlock(s)
  {
    var open := Find(s, '{');
    assert forall j | open <= j < |s| :: s[j] == s[open..][j - open];
  }

  lemma StartsWithBlock(tail: string, n: nat)
    requires n == Find(tail, '}') && n < |tail| && tail[0] == '{'
    ensures IsBlock(tail[..n + 1])
  {
    assert tail[..n + 1][..n] == tail[..n];
  }

  lemma Cut(s: string, i: nat, n: nat)
    requires i + n <= |s|
    ensures s == s[..i] + s[i..][..n] + s[i..][n..]
  {}

  lemma SearchTakesApart(s: string, m: Match)
    requires Search(s) == m && m.Match?
    ensures Free(m.text, '{') && IsBlock(m.block) && s == m.text + m.block + m.rest
  {
    var open := Find(s, '{');
    var n := Find(s[open..], '}');
    StartsWithBlock(s[open..], n);
    Cut(s, open, n + 1);
  }

  /** Blocks with text before each of them and text after the last. */
  function Interleave(texts: seq<string>, blocks: seq<string>, last: string): string
    requires |texts| == |blocks|
  {
    if blocks == [] then last else texts[0] + blocks[0] + Interleave(texts[1..], blocks[1..], last)
  }

  /** The texts and blocks that the search tells apart. */
  ghost predicate Separated(texts: seq<string>, blocks: seq<string>, last: string) {
    && |texts| == |blocks| && NoBlock(last)
    && forall i | 0 <= i < |blocks| :: Free(texts[i], '{') && IsBlock(blocks[i])
  }

  /** Blocks between texts without an opening brace are found, all of them and in order. */
  lemma {:induction false} FindsTheBlocks(texts: seq<string>, blocks: seq<string>, last: string)
    requires Separated(texts, blocks, last)
    ensures FindAll(Interleave(texts, blocks, last)) == blocks
    decreases |blocks|
  {
    if blocks == [] {
      SearchFindsNone(last);
    } else {
      SearchFinds(texts[0], blocks[0], Interleave(texts[1..], blocks[1..], last));
      FindsTheBlocks(texts[1..], blocks[1..], last);
    }
  }

  /** The texts between the blocks of any input. */
  function Texts(s: string): (ts: seq<string>)
    ensures |ts| == |FindAll(s)|
    decreases |s|
  {
    match Search(s)
    case NoMatch => []
    case Match(text, _, rest) => [text] + Texts(rest)
  }

  /** What follows the last block. */
  function Last(s: string): string
    decreases |s|
  {
    match Search(s)
    case NoMatch => s
    case Match(_, _, rest) => Last(rest)
  }

  lemma OneMore(text: string, block: string, texts: seq<string>, blocks: seq<string>, last: string)
    requires Separated(texts, blocks, last) && Free(text, '{') && IsBlock(block)
    ensures Separated([text] + texts, [block] + blocks, last)
    ensures Interleave([text] + texts, [block] + blocks, last) == text + block + Interleave(texts, blocks, last)
  {
    assert ([text] + texts)[1..] == texts && ([block] + blocks)[1..] == blocks;
  }

  /** Every input is taken apart completely: it is its blocks with the texts between them, no text before a block has an
      opening brace, and no block is left after the last one. */
  lemma {:induction false} TakesApart(s: string)
    ensures Separated(Texts(s), FindAll(s), Last(s))
    ensures Interleave(Texts(s), FindAll(s), Last(s)) == s
    decreases |s|
  {
    var m := Search(s);
    if m == NoMatch {
      SearchMisses(s);
    } else {
      SearchTakesApart(s, m);
      TakesApart(m.rest);
      OneMore(m.text, m.block, Texts(m.rest), FindAll(m.rest), Last(m.rest));
    }
  }

  // ---------------------------------------------------------------------------------------------------------
  // Files
  // ---------------------------------------------------------------------------------------------------------

  const INDEX := "./bootstrap/index.html"

  function FileName(n: nat): string {
    "./bootstrap/block" + Decimal(n) + ".json"
  }

  function Image(n: nat): (image: string)
    ensures image != ""
  {
    "<img src=\"block" + Decimal(n) + ".png\"/>"
  }

  /** One image per block, in order. */
  function Images(n: nat): string {
    if n == 0 then "" else Images(n - 1) + Image(n - 1)
  }

  function Page(n: nat): string { "<body>" + Images(n) + "</body>" }

  lemma FileNameInjective(m: nat, n: nat)
    ensures FileName(m) == FileName(n) ==> m == n
    ensures FileName(n) != INDEX
  {
    var p, q := "./bootstrap/block", ".json";
    var a, b := Decimal(m), Decimal(n);
    assert FileName(m)[|p|..|FileName(m)| - |q|] == a;
    assert FileName(n)[|p|..|FileName(n)| - |q|] == b;
    assert FileName(n)[12] == 'b' && INDEX[12] == 'i';
    if a == b { DecimalInjective(m, n); }
  }

  /** Names and images, literally. */
  lemma NamesLiterally(n: nat)
    ensures var name := FileName(n); var end := 17 + |Decimal(n)|;
            && |name| == end + 5
            && name[..17] == "./bootstrap/block" && name[17..end] == Decimal(n) && name[end..] == ".json"
    ensures var image := Image(n); var end := 15 + |Decimal(n)|;
            && |image| == end + 7
            && image[..15] == "<img src=\"block" && image[15..end] == Decimal(n) && image[end..] == ".png\"/>"
  {}

  /** On the page the image of block `i` comes right after those of the blocks before it, and after them nothing but more
      images. */
  lemma {:induction false} ImagesInOrder(i: nat, n: nat)
    requires i < n
    ensures Images(i) + Image(i) <= Images(n)
    decreases n
  {
    if i < n - 1 { ImagesInOrder(i, n - 1); }
  }

  lemma PageLiterally(n: nat)
    ensures Images(0) == "" && Page(n)[..6] == "<body>" && |Page(n)| == 13 + |Images(n)|
    ensures Page(n)[6..6 + |Images(n)|] == Images(n) && Page(n)[6 + |Images(n)|..] == "</body>"
  {}

  lemma {:induction false} ImagesGrow(m: nat, n: nat)
    requires m < n
    ensures |Images(m)| < |Images(n)|
    decreases n
  {
    if m < n - 1 { ImagesGrow(m, n - 1); }
  }

  /** The index page tells how many blocks there are. */
  lemma PageInjective(m: nat, n: nat)
    requires Page(m) == Page(n)
    ensures m == n
  {
    if m < n { ImagesGrow(m, n); } else if n < m { ImagesGrow(n, m); }
  }

  /** The first `n` numbered files hold the first `n` blocks. */
  ghost predicate Stored(files: map<string, string>, blocks: seq<string>, n: nat)
    requires n <= |blocks|
  {
    forall i: nat {:trigger FileName(i)} | i < n :: FileName(i) in files && files[FileName(i)] == blocks[i]
  }

  ghost predicate Named(name: string, n: nat) {
    exists i: nat :: i < n && name == FileName(i)
  }

  /** Nothing else has changed since `before`. */
  ghost predicate OthersKept(before: map<string, string>, files: map<string, string>, n: nat) {
    forall name {:trigger Named(name, n)} | name != INDEX && !Named(name, n) ::
      (name in files <==> name in before) && (name in before ==> files[name] == before[name])
  }

  /** Writing block `n` to its file. */
  lemma WriteOne(before: map<string, string>, files: map<string, string>, blocks: seq<string>, n: nat)
    requires n < |blocks| && Stored(files, blocks, n) && OthersKept(before, files, n)
    ensures var after := files[FileName(n) := blocks[n]]; Stored(after, blocks, n + 1) && OthersKept(before, after, n + 1)
  {
    var after := files[FileName(n) := blocks[n]];
    forall i: nat | i < n + 1
      ensures FileName(i) in after && after[FileName(i)] == blocks[i]
    {
      FileNameInjective(i, n);
    }
    forall name | name != INDEX && !Named(name, n + 1)
      ensures (name in after <==> name in before) && (name in before ==> after[name] == before[name])
    {
      assert !Named(name, n) && name != FileName(n);
    }
  }

  /** Writing to the index page touches no block. */
  lemma WriteIndex(before: map<string, string>, files: map<string, string>, blocks: seq<string>, n: nat, page: string)
    requires n <= |blocks| && Stored(files, blocks, n) && OthersKept(before, files, n)
    ensures Stored(files[INDEX := page], blocks, n) && OthersKept(before, files[INDEX := page], n)
  {
    forall i: nat | i < n
      ensures FileName(i) != INDEX
    {
      FileNameInjective(i, i);
    }
  }

  /** The script: what it leaves in the directory, given what was there. */
  method WriteBlocks(contents: string, before: map<string, string>) returns (files: map<string, string>)
    ensures var n := |FindAll(contents)|;
      Stored(files, FindAll(contents), n) && OthersKept(before, files, n) && INDEX in files && files[INDEX] == Page(n)
  {
    var subs := FindAll(contents);
    var page := "<body>";
    WriteIndex(before, before, subs, 0, page);
    files := before[INDEX := page];
    for number := 0 to |subs|
      invariant Stored(files, subs, number) && OthersKept(before, files, number)
      invariant page == "<body>" + Images(number)
    {
      WriteOne(before, files, subs, number);
      files := files[FileName(number) := subs[number]];
      page := page + Image(number);
      WriteIndex(before, files, subs, number + 1, page);
      files := files[INDEX := page];
    }
    page := page + "</body>";
    WriteIndex(before, files, subs, |subs|, page);
    files := files[INDEX := page];
  }

  /** Reading back as many numbered files as the index page shows. */
  ghost predicate ReadBack(files: map<string, string>, blocks: seq<string>) {
    && INDEX in files && files[INDEX] == Page(|blocks|)
    && forall i: nat {:trigger FileName(i)} | i < |blocks| :: FileName(i) in files && files[FileName(i)] == blocks[i]
  }

  /** From a text of blocks to files and back: the blocks that went in come out, and no other list does. */
  method RoundTrip(texts: seq<string>, blocks: seq<string>, last: string, before: map<string, string>)
    returns (files: map<string, string>)
    requires Separated(texts, blocks, last)
    ensures ReadBack(files, blocks)
    ensures forall other | ReadBack(files, other) :: other == blocks
  {
    FindsTheBlocks(texts, blocks, last);
    files := WriteBlocks(Interleave(texts, blocks, last), before);
    forall other | ReadBack(files, other)
      ensures other == blocks
    {
      ReadsOneList(files, blocks, other);
    }
  }

  lemma ReadsOneList(files: map<string, string>, a: seq<string>, b: seq<string>)
    requires ReadBack(files, a) && ReadBack(files, b)
    ensures a == b
  {
    PageInjective(|a|, |b|);
    forall i | 0 <= i < |a|
      ensures a[i] == b[i]
    {
      assert files[FileName(i)] == a[i];
    }
  }
}
