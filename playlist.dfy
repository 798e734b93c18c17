/** The channel loader: turns the fetched text of an M3U playlist into an
    ordered list of (name, url) channels. */
module Playlist {
  import opened Text

  /** One catalog entry; duplicates are kept. */
  datatype Channel = Channel(name: string, url: string)

  /** Outcome of the HTTP fetch, which is not part of this model: the decoded
      body, or a failure (connection error or a non-success status). */
  datatype Fetch = Fetched(text: string) | Failed

  /** The marker that opens a metadata line. */
  const MetaMarker: string := "#EXTINF"
  /** The prefix a stream URL must have to be kept. */
  const UrlPrefix: string := "http"

  predicate IsMeta(line: string) {
    StartsWith(line, MetaMarker)
  }

  /** Display name of a metadata line: the stripped text after its last comma. */
  function NameOf(line: string): (name: string) {
    Strip(AfterLast(line, ','))
  }

  /** What the scan reads off one line: whether it opens an entry, the name it
      would give, the line stripped (its text as a candidate url), and whether
      that stripped text starts with "http". */
  datatype LineInfo = LineInfo(meta: bool, name: string, stripped: string, isUrl: bool)

  function Classify(line: string): (info: LineInfo) {
    var stripped := Strip(line);
    LineInfo(IsMeta(line), NameOf(line), stripped, StartsWith(stripped, UrlPrefix))
  }

  /** The lines classified one by one. */
  function Classified(lines: seq<string>): (infos: seq<LineInfo>)
    ensures |infos| == |lines|
  {
    if lines == [] then [] else [Classify(lines[0])] + Classified(lines[1..])
  }

  /** Entry `i` of the classification describes line `i`. */
  lemma {:induction false} ClassifiedIndex(lines: seq<string>)
    ensures forall i :: 0 <= i < |lines| ==> Classified(lines)[i] == Classify(lines[i])
  {
    if lines != [] {
      var rest := lines[1..];
      ClassifiedIndex(rest);
      assert Classified(lines) == [Classify(lines[0])] + Classified(rest);
      forall i | 0 < i < |lines| ensures Classified(lines)[i] == Classify(lines[i]) {
        assert rest[i - 1] == lines[i];
      }
    }
  }

  /** The entry opened at `i` is kept: line `i` is a metadata line and a next line
      exists and starts with "http" once stripped. (For the last line the candidate
      url is "", which never starts with "http".) */
  predicate Accepts(infos: seq<LineInfo>, i: nat)
    requires i < |infos|
  {
    infos[i].meta && i + 1 < |infos| && infos[i + 1].isUrl
  }

  function ChannelAt(infos: seq<LineInfo>, i: nat): (c: Channel)
    requires i + 1 < |infos|
  {
    Channel(infos[i].name, infos[i + 1].stripped)
  }

  /** What one step of the scan appends for line `i`. */
  function StepAt(infos: seq<LineInfo>, i: nat): (step: seq<Channel>)
    requires i < |infos|
  {
    if Accepts(infos, i) then [ChannelAt(infos, i)] else []
  }

  /** The channels found among the first `n` lines. */
  function Scan(infos: seq<LineInfo>, n: nat): (channels: seq<Channel>)
    requires n <= |infos|
  {
    if n == 0 then [] else Scan(infos, n - 1) + StepAt(infos, n - 1)
  }

  /** The channels of a whole playlist, in the order of their metadata lines. */
  function Parse(lines: seq<string>): (channels: seq<Channel>) {
    Scan(Classified(lines), |lines|)
  }

  /** The loader's result: a failed fetch gives the empty list. */
  function Load(fetched: Fetch): (channels: seq<Channel>) {
    match fetched
    case Failed => []
    case Fetched(text) => Parse(SplitLines(text))
  }

  /** `load_channels`: scans the lines once, appending each accepted channel. */
  method LoadChannels(fetched: Fetch) returns (channels: seq<Channel>)
    ensures channels == Load(fetched)
  {
    channels := [];
    if fetched.Failed? {
      return;
    }
    var lines := SplitLines(fetched.text);
    ghost var infos := Classified(lines);
    for i := 0 to |lines|
      invariant channels == Scan(infos, i)
    {
      StepOfLine(lines, i);
      if StartsWith(lines[i], MetaMarker) {
        var name := Strip(AfterLast(lines[i], ','));
        var url := if i + 1 < |lines| then Strip(lines[i + 1]) else "";
        if StartsWith(url, UrlPrefix) {
          channels := channels + [Channel(name, url)];
        }
      }
    }
  }

  /** One step of the scan in terms of the lines themselves. */
  lemma {:induction false} StepOfLine(lines: seq<string>, i: nat)
    requires i < |lines|
    ensures StepAt(Classified(lines), i) ==
      if IsMeta(lines[i]) && i + 1 < |lines| && StartsWith(Strip(lines[i + 1]), UrlPrefix)
      then [Channel(NameOf(lines[i]), Strip(lines[i + 1]))] else []
  {
    ClassifiedIndex(lines);
  }

  // ---------------------------------------------------------------------------
  // Where each channel comes from

  /** Indices (below `n`) of the lines whose entry is kept, ascending. */
  function KeptBelow(infos: seq<LineInfo>, n: nat): (idx: seq<nat>)
    requires n <= |infos|
    ensures forall k :: 0 <= k < |idx| ==> idx[k] < n
  {
    if n == 0 then []
    else KeptBelow(infos, n - 1) + (if Accepts(infos, n - 1) then [n - 1] else [])
  }

  /** The kept indices are strictly ascending. */
  lemma {:induction false} KeptBelowAscending(infos: seq<LineInfo>, n: nat)
    requires n <= |infos|
    ensures forall j, k :: 0 <= j < k < |KeptBelow(infos, n)| ==> KeptBelow(infos, n)[j] < KeptBelow(infos, n)[k]
  {
    if n > 0 {
      KeptBelowAscending(infos, n - 1);
    }
  }

  /** Each kept index opens an accepted entry. */
  lemma {:induction false} KeptBelowSound(infos: seq<LineInfo>, n: nat)
    requires n <= |infos|
    ensures forall k :: 0 <= k < |KeptBelow(infos, n)| ==> Accepts(infos, KeptBelow(infos, n)[k])
  {
    if n > 0 {
      KeptBelowSound(infos, n - 1);
    }
  }

  /** Every accepted index below `n` is kept. */
  lemma {:induction false} KeptBelowComplete(infos: seq<LineInfo>, n: nat, i: nat)
    requires i < n <= |infos|
    requires Accepts(infos, i)
    ensures i in KeptBelow(infos, n)
  {
    if i < n - 1 {
      KeptBelowComplete(infos, n - 1, i);
    }
  }

  /** The k-th channel found in the first `n` lines is the entry of the k-th kept line. */
  lemma {:induction false} ScanFromKept(infos: seq<LineInfo>, n: nat)
    requires n <= |infos|
    ensures |Scan(infos, n)| == |KeptBelow(infos, n)|
    ensures forall k :: 0 <= k < |Scan(infos, n)| ==>
      KeptBelow(infos, n)[k] + 1 < |infos| && Scan(infos, n)[k] == ChannelAt(infos, KeptBelow(infos, n)[k])
  {
    if n > 0 {
      ScanFromKept(infos, n - 1);
      KeptBelowSound(infos, n - 1);
      if Accepts(infos, n - 1) {
        assert Scan(infos, n) == Scan(infos, n - 1) + [ChannelAt(infos, n - 1)];
        assert KeptBelow(infos, n) == KeptBelow(infos, n - 1) + [n - 1];
      } else {
        assert Scan(infos, n) == Scan(infos, n - 1);
        assert KeptBelow(infos, n) == KeptBelow(infos, n - 1);
      }
    }
  }

  /** The lines whose entries `Parse(lines)` keeps. */
  function KeptLines(lines: seq<string>): (idx: seq<nat>) {
    KeptBelow(Classified(lines), |lines|)
  }

  /** Every parsed channel comes from its own metadata line, in strictly increasing line
      order: its name is that line's stripped text after the last comma, and its url is
      the stripped line right after it, which starts with "http". Conversely every
      metadata line followed by such a line is one of the kept lines, so an entry that
      appears twice in the text yields two channels. */
  lemma {:induction false} ParseProvenance(lines: seq<string>)
    ensures |Parse(lines)| == |KeptLines(lines)|
    ensures forall k :: 0 <= k < |Parse(lines)| ==>
      var i := KeptLines(lines)[k];
      i + 1 < |lines| && IsMeta(lines[i])
      && Parse(lines)[k] == Channel(NameOf(lines[i]), Strip(lines[i + 1]))
      && StartsWith(Strip(lines[i + 1]), UrlPrefix)
    ensures forall j, k :: 0 <= j < k < |Parse(lines)| ==> KeptLines(lines)[j] < KeptLines(lines)[k]
    ensures forall i :: 0 <= i < |lines| - 1 && IsMeta(lines[i]) && StartsWith(Strip(lines[i + 1]), UrlPrefix) ==>
      i in KeptLines(lines)
  {
    var infos := Classified(lines);
    ClassifiedIndex(lines);
    ScanFromKept(infos, |lines|);
    KeptBelowAscending(infos, |lines|);
    KeptBelowSound(infos, |lines|);
    forall k | 0 <= k < |Parse(lines)|
      ensures var i := KeptLines(lines)[k];
        i + 1 < |lines| && IsMeta(lines[i])
        && Parse(lines)[k] == Channel(NameOf(lines[i]), Strip(lines[i + 1]))
        && StartsWith(Strip(lines[i + 1]), UrlPrefix)
    {
      var i := KeptLines(lines)[k];
      assert Accepts(infos, i);
      assert infos[i] == Classify(lines[i]) && infos[i + 1] == Classify(lines[i + 1]);
    }
    forall i | 0 <= i < |lines| - 1 && IsMeta(lines[i]) && StartsWith(Strip(lines[i + 1]), UrlPrefix)
      ensures i in KeptLines(lines)
    {
      assert infos[i] == Classify(lines[i]) && infos[i + 1] == Classify(lines[i + 1]);
      KeptBelowComplete(infos, |lines|, i);
    }
  }

  /** A metadata line followed by a url line yields its channel. */
  lemma {:induction false} ParseKeepsPair(lines: seq<string>, i: nat)
    requires i + 1 < |lines| && IsMeta(lines[i]) && StartsWith(Strip(lines[i + 1]), UrlPrefix)
    ensures Channel(NameOf(lines[i]), Strip(lines[i + 1])) in Parse(lines)
  {
    ParseProvenance(lines);
    var k :| 0 <= k < |KeptLines(lines)| && KeptLines(lines)[k] == i;
  }

  // ---------------------------------------------------------------------------
  // Urls, names, counts and the empty cases

  /** A display name never contains a comma: it is a slice of the text after the last one. */
  lemma {:induction false} NameHasNoComma(line: string)
    ensures ',' !in NameOf(line)
  {
    var after := AfterLast(line, ',');
    var name := Strip(after);
    AfterLastExact(line, ',');
    StripExact(after);
    forall k | 0 <= k < |name| ensures name[k] != ',' {
      assert name[k] == after[LeadingSpaces(after) + k];
    }
  }

  /** Every returned url starts with "http" and no returned name contains a comma. */
  lemma {:induction false} ParseUrlsAndNames(lines: seq<string>)
    ensures forall k :: 0 <= k < |Parse(lines)| ==>
      StartsWith(Parse(lines)[k].url, UrlPrefix) && ',' !in Parse(lines)[k].name
  {
    ParseProvenance(lines);
    forall k | 0 <= k < |Parse(lines)|
      ensures StartsWith(Parse(lines)[k].url, UrlPrefix) && ',' !in Parse(lines)[k].name
    {
      NameHasNoComma(lines[KeptLines(lines)[k]]);
    }
  }

  /** Number of metadata lines among the first `n` lines. */
  function MetaLines(lines: seq<string>, n: nat): (count: nat)
    requires n <= |lines|
  {
    if n == 0 then 0 else MetaLines(lines, n - 1) + (if IsMeta(lines[n - 1]) then 1 else 0)
  }

  /** The first `n` lines never yield more channels than they have metadata lines. */
  lemma {:induction false} ScanCount(lines: seq<string>, n: nat)
    requires n <= |lines|
    ensures |Scan(Classified(lines), n)| <= MetaLines(lines, n)
  {
    if n > 0 {
      ScanCount(lines, n - 1);
      StepOfLine(lines, n - 1);
    }
  }

  /** A playlist never yields more channels than it has metadata lines. */
  lemma {:induction false} ParseCount(lines: seq<string>)
    ensures |Parse(lines)| <= MetaLines(lines, |lines|)
  {
    ScanCount(lines, |lines|);
  }

  /** Lines with no metadata line before the last one yield no channel. */
  lemma {:induction false} ScanEmpty(infos: seq<LineInfo>, n: nat)
    requires n <= |infos|
    requires forall i :: 0 <= i < |infos| - 1 ==> !infos[i].meta
    ensures Scan(infos, n) == []
  {
    if n > 0 {
      ScanEmpty(infos, n - 1);
    }
  }

  /** Text without any metadata line, or whose only one is the last line, yields no channel. */
  lemma {:induction false} ParseEmpty(lines: seq<string>)
    requires forall i :: 0 <= i < |lines| - 1 ==> !IsMeta(lines[i])
    ensures Parse(lines) == []
  {
    var infos := Classified(lines);
    ClassifiedIndex(lines);
    forall i | 0 <= i < |infos| - 1 ensures !infos[i].meta {
      assert infos[i] == Classify(lines[i]);
    }
    ScanEmpty(infos, |lines|);
  }

  /** A metadata line is never taken for a url: stripped, it still starts with '#'. */
  lemma {:induction false} MetaIsNotUrl(line: string)
    requires IsMeta(line)
    ensures !StartsWith(Strip(line), UrlPrefix)
  {
    assert line[0] == '#';
    assert LeadingSpaces(line) == 0;
    StripExact(line);
    assert Strip(line)[0] == '#';
  }

  /** The line after a metadata line is not skipped: when it is itself a metadata line,
      the first entry is dropped (its candidate url starts with '#') and the second
      line is examined as a metadata line of its own. */
  lemma {:induction false} MetaAfterMeta(lines: seq<string>, i: nat)
    requires i + 1 < |lines| && IsMeta(lines[i]) && IsMeta(lines[i + 1])
    ensures !Accepts(Classified(lines), i)
    ensures i + 2 < |lines| && StartsWith(Strip(lines[i + 2]), UrlPrefix) ==>
      Channel(NameOf(lines[i + 1]), Strip(lines[i + 2])) in Parse(lines)
  {
    assert !Classified(lines)[i + 1].isUrl by {
      MetaIsNotUrl(lines[i + 1]);
      ClassifiedIndex(lines);
    }
    if i + 2 < |lines| && StartsWith(Strip(lines[i + 2]), UrlPrefix) {
      ParseKeepsPair(lines, i + 1);
    }
  }

  // ---------------------------------------------------------------------------
  // Playlists put together

  lemma {:induction false} ClassifiedAppend(lines: seq<string>, more: seq<string>)
    ensures Classified(lines + more) == Classified(lines) + Classified(more)
  {
    var all := Classified(lines + more);
    ClassifiedIndex(lines);
    ClassifiedIndex(more);
    ClassifiedIndex(lines + more);
    forall i | 0 <= i < |all| ensures all[i] == (Classified(lines) + Classified(more))[i] {
      if i < |lines| {
        assert (lines + more)[i] == lines[i];
      } else {
        assert (lines + more)[i] == more[i - |lines|];
      }
    }
  }

  lemma {:induction false} LastNotMeta(lines: seq<string>)
    requires lines == [] || !IsMeta(lines[|lines| - 1])
    ensures var infos := Classified(lines); infos == [] || !infos[|infos| - 1].meta
  {
    ClassifiedIndex(lines);
  }

  lemma {:induction false} ScanLeft(infos: seq<LineInfo>, more: seq<LineInfo>, n: nat)
    requires n <= |infos|
    requires infos == [] || !infos[|infos| - 1].meta
    ensures Scan(infos + more, n) == Scan(infos, n)
  {
    if n > 0 {
      ScanLeft(infos, more, n - 1);
      var all := infos + more;
      assert all[n - 1] == infos[n - 1];
      if n < |infos| {
        assert all[n] == infos[n];
      }
      assert StepAt(all, n - 1) == StepAt(infos, n - 1);
    }
  }

  /** Regrouping a concatenation, stated generically so that the proof about the
      scan does not have to reason about sequences of channels element by element. */
  lemma {:induction false} ConcatAssociative<T>(a: seq<T>, b: seq<T>, c: seq<T>)
    ensures (a + b) + c == a + (b + c)
  {
  }

  lemma {:induction false} ScanRight(infos: seq<LineInfo>, more: seq<LineInfo>, k: nat)
    requires k <= |more|
    requires infos == [] || !infos[|infos| - 1].meta
    ensures Scan(infos + more, |infos| + k) == Scan(infos, |infos|) + Scan(more, k)
  {
    if k == 0 {
      ScanLeft(infos, more, |infos|);
      assert Scan(infos, |infos|) + [] == Scan(infos, |infos|);
    } else {
      ScanRight(infos, more, k - 1);
      var all := infos + more;
      assert all[|infos| + k - 1] == more[k - 1];
      if k < |more| {
        assert all[|infos| + k] == more[k];
      }
      assert StepAt(all, |infos| + k - 1) == StepAt(more, k - 1);
      ConcatAssociative(Scan(infos, |infos|), Scan(more, k - 1), StepAt(more, k - 1));
    }
  }

  lemma {:induction false} ScanAppend(infos: seq<LineInfo>, more: seq<LineInfo>)
    requires infos == [] || !infos[|infos| - 1].meta
    ensures Scan(infos + more, |infos + more|) == Scan(infos, |infos|) + Scan(more, |more|)
  {
    assert |infos + more| == |infos| + |more|;
    ScanRight(infos, more, |more|);
  }

  /** Playlists joined after a line that is not a metadata line parse to the
      concatenation of their channel lists, in the same order. */
  lemma {:induction false} ParseAppend(lines: seq<string>, more: seq<string>)
    requires lines == [] || !IsMeta(lines[|lines| - 1])
    ensures Parse(lines + more) == Parse(lines) + Parse(more)
  {
    ClassifiedAppend(lines, more);
    LastNotMeta(lines);
    ScanAppend(Classified(lines), Classified(more));
  }

  /** The channels found among fewer lines are a prefix of those found among more. */
  lemma {:induction false} ScanPrefix(infos: seq<LineInfo>, m: nat, n: nat)
    requires m <= n <= |infos|
    ensures Scan(infos, m) <= Scan(infos, n)
    decreases n - m
  {
    if m < n {
      ScanPrefix(infos, m, n - 1);
    }
  }

  /** Two classifications that agree on their first `k + 1` entries find the same
      channels among their first `k` lines. */
  lemma {:induction false} ScanAgree(short: seq<LineInfo>, long: seq<LineInfo>, k: nat)
    requires short <= long && k < |short|
    ensures Scan(short, k) == Scan(long, k)
  {
    if k > 0 {
      ScanAgree(short, long, k - 1);
      assert short[k - 1] == long[k - 1] && short[k] == long[k];
      assert StepAt(short, k - 1) == StepAt(long, k - 1);
    }
  }

  /** The lines of a truncated playlist are classified as in the whole one. */
  lemma {:induction false} ClassifiedPrefix(lines: seq<string>, n: nat)
    requires n <= |lines|
    ensures Classified(lines[..n]) <= Classified(lines)
  {
    ClassifiedIndex(lines);
    ClassifiedIndex(lines[..n]);
    forall i | 0 <= i < n ensures Classified(lines[..n])[i] == Classified(lines)[i] {
      assert lines[..n][i] == lines[i];
    }
  }

  /** A playlist cut after any line, even between a metadata line and its url, yields a
      prefix of the whole playlist's channels: a cut only drops channels at the end. */
  lemma {:induction false} ParsePrefix(lines: seq<string>, n: nat)
    requires n <= |lines|
    ensures Parse(lines[..n]) <= Parse(lines)
  {
    if n > 0 {
      var short, long := Classified(lines[..n]), Classified(lines);
      ClassifiedPrefix(lines, n);
      assert Scan(short, n) == Scan(short, n - 1);
      ScanAgree(short, long, n - 1);
      ScanPrefix(long, n - 1, |lines|);
    }
  }

  /** A metadata line and the line after it. */
  lemma {:induction false} ParsePair(meta: string, next: string)
    requires IsMeta(meta)
    ensures Parse([meta, next]) ==
      if StartsWith(Strip(next), UrlPrefix) then [Channel(NameOf(meta), Strip(next))] else []
  {
    var infos := Classified([meta, next]);
    ClassifiedIndex([meta, next]);
    assert infos[0] == Classify(meta) && infos[1] == Classify(next);
    assert Scan(infos, 1) == Scan(infos, 0) + StepAt(infos, 0);
    assert Scan(infos, 2) == Scan(infos, 1) + StepAt(infos, 1);
  }

  /** The metadata line an index playlist writes for a channel titled `title`. */
  function MetaLine(title: string): (line: string) {
    "#EXTINF:-1," + title
  }

  lemma {:induction false} MetaLineIsMeta(title: string)
    ensures IsMeta(MetaLine(title))
  {
    assert MetaLine(title)[..7] == MetaMarker;
  }

  /** The display name of such a line is its title. */
  lemma {:induction false} NameOfMetaLine(title: string)
    requires ',' !in title && Unpadded(title)
    ensures NameOf(MetaLine(title)) == title
  {
    assert MetaLine(title) == "#EXTINF:-1" + [','] + title;
    AfterLastOfSplit("#EXTINF:-1", title, ',');
    StripUnpadded(title);
  }

  lemma {:induction false} MetaLineHasNoBreak(title: string)
    requires HasNoBreak(title)
    ensures HasNoBreak(MetaLine(title))
  {
    var l := MetaLine(title);
    forall j | 0 <= j < |l| ensures !IsLineBreak(l[j]) {
      if j >= 11 {
        assert l[j] == title[j - 11];
      }
    }
  }

  /** A line that is a stream URL is not a metadata line. */
  lemma {:induction false} UrlIsNotMeta(url: string)
    requires StartsWith(url, UrlPrefix)
    ensures !IsMeta(url)
  {
    assert url[0] == 'h';
  }

  /** An entry whose next line is a URL yields its channel; the URL line opens no entry. */
  lemma {:induction false} KeptPair(title: string, url: string)
    requires ',' !in title && Unpadded(title)
    requires StartsWith(url, UrlPrefix) && Unpadded(url)
    ensures Parse([MetaLine(title), url]) == [Channel(title, url)]
    ensures !IsMeta(url)
  {
    MetaLineIsMeta(title);
    NameOfMetaLine(title);
    StripUnpadded(url);
    ParsePair(MetaLine(title), url);
    UrlIsNotMeta(url);
  }

  /** An entry listed twice yields its channel twice, in place. */
  lemma {:induction false} ParseKeepsDuplicates(title: string, url: string)
    requires ',' !in title && Unpadded(title)
    requires StartsWith(url, UrlPrefix) && Unpadded(url)
    ensures Parse([MetaLine(title), url, MetaLine(title), url]) == [Channel(title, url), Channel(title, url)]
  {
    var pair := [MetaLine(title), url];
    KeptPair(title, url);
    ParseAppend(pair, pair);
    assert [MetaLine(title), url, MetaLine(title), url] == pair + pair;
  }

  /** An entry whose next line is not a URL yields nothing. */
  lemma {:induction false} DroppedPair(title: string, bad: string)
    requires !IsMeta(bad) && !StartsWith(Strip(bad), UrlPrefix)
    ensures Parse([MetaLine(title), bad]) == []
  {
    MetaLineIsMeta(title);
    ParsePair(MetaLine(title), bad);
  }

  /** Six lines without boundaries, joined by `\n`, split back into the same six. */
  lemma {:induction false} SplitSixLines(a: string, b: string, c: string, urlA: string, bad: string, urlC: string)
    requires HasNoBreak(a) && HasNoBreak(b) && HasNoBreak(c)
    requires HasNoBreak(urlA) && HasNoBreak(bad) && HasNoBreak(urlC) && urlC != []
    ensures SplitLines(JoinLines([MetaLine(a), urlA, MetaLine(b), bad, MetaLine(c), urlC]))
         == [MetaLine(a), urlA, MetaLine(b), bad, MetaLine(c), urlC]
  {
    MetaLineHasNoBreak(a);
    MetaLineHasNoBreak(b);
    MetaLineHasNoBreak(c);
    SplitJoinLinesRoundTrip([MetaLine(a), urlA, MetaLine(b), bad, MetaLine(c), urlC]);
  }

  /** Three playlists, the first two ending in a line that is not a metadata line. */
  lemma {:induction false} ParseOfThree(first: seq<string>, second: seq<string>, third: seq<string>)
    requires first == [] || !IsMeta(first[|first| - 1])
    requires second == [] || !IsMeta(second[|second| - 1])
    ensures Parse(first + (second + third)) == Parse(first) + (Parse(second) + Parse(third))
  {
    ParseAppend(second, third);
    ParseAppend(first, second + third);
  }

  /** Three entries whose middle one is followed by a line that is not a URL: the
      first and third are kept, in order, and the middle one is dropped. */
  lemma {:induction false} ParseDropsEntryWithoutUrl(a: string, b: string, c: string, urlA: string, bad: string, urlC: string)
    requires ',' !in a && Unpadded(a) && ',' !in c && Unpadded(c)
    requires StartsWith(urlA, UrlPrefix) && Unpadded(urlA)
    requires StartsWith(urlC, UrlPrefix) && Unpadded(urlC)
    requires !IsMeta(bad) && !StartsWith(Strip(bad), UrlPrefix)
    ensures Parse([MetaLine(a), urlA, MetaLine(b), bad, MetaLine(c), urlC])
         == [Channel(a, urlA), Channel(c, urlC)]
  {
    var first, second, third := [MetaLine(a), urlA], [MetaLine(b), bad], [MetaLine(c), urlC];
    KeptPair(a, urlA);
    DroppedPair(b, bad);
    KeptPair(c, urlC);
    assert [MetaLine(a), urlA, MetaLine(b), bad, MetaLine(c), urlC] == first + (second + third);
    ParseOfThree(first, second, third);
  }

  /** The same three entries as fetched text, lines joined by `\n`: the loader keeps
      the first and third channel, in order. */
  lemma {:induction false} DropsEntryWithoutUrl(a: string, b: string, c: string, urlA: string, bad: string, urlC: string)
    requires HasNoBreak(a) && HasNoBreak(b) && HasNoBreak(c)
    requires HasNoBreak(urlA) && HasNoBreak(bad) && HasNoBreak(urlC)
    requires ',' !in a && Unpadded(a) && ',' !in c && Unpadded(c)
    requires StartsWith(urlA, UrlPrefix) && Unpadded(urlA)
    requires StartsWith(urlC, UrlPrefix) && Unpadded(urlC)
    requires !IsMeta(bad) && !StartsWith(Strip(bad), UrlPrefix)
    ensures Load(Fetched(JoinLines([MetaLine(a), urlA, MetaLine(b), bad, MetaLine(c), urlC])))
         == [Channel(a, urlA), Channel(c, urlC)]
  {
    SplitSixLines(a, b, c, urlA, bad, urlC);
    ParseDropsEntryWithoutUrl(a, b, c, urlA, bad, urlC);
  }
}
