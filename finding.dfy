/**
 * The end of the section in `process_document`.
 *
 * `end_index` is taken from the page as scraped, but the slice is cut from
 * the page after `Overdue Assignments` and `Assignments that are due` have
 * each gained a colon. Every colon inserted ahead of `Submitted Assignments`
 * moves that heading one place right, so the slice stops that many
 * characters early. On a page laid out as the two headings, one entry and
 * `Submitted Assignments`, each on its own line, two characters are lost:
 * the newline and the last character of the entry, which for an inline
 * entry is the `)` closing its due date.
 */
module SectionEnd {
  import opened Options
  import opened Text
  import opened Formats
  import opened Processor
  import opened LineForms

  /** A page whose due section holds the single line `entry`. */
  function Page(entry: string): string
  {
    StartMarker + "\n" + DueHeading + "\n" + entry + "\n" + EndMarker
  }

  /**
   * An entry that does not end in blanks and has no letter the headings'
   * positions depend on: no `O` (so no second `Overdue Assignments`), no `S`
   * (so no earlier `Submitted Assignments`) and no `h` (so no second
   * `Assignments that are due`).
   */
  predicate PlainEntry(entry: string)
  {
    |entry| >= 2 && !IsSpace(entry[0]) && !IsSpace(entry[|entry| - 2]) && !IsSpace(entry[|entry| - 1])
    && 'O' !in entry && 'S' !in entry && 'h' !in entry
  }

  // ---------------------------------------------------------------------------
  // The same facts for any three headings, stated on whole strings so that
  // the solver neither looks inside the heading literals nor unfolds the
  // replacement along a concatenation

  /** A heading at the front gains its colon; its first letter occurs nowhere after it. */
  lemma FrontColonised(sm: string, tail: string, page: string)
    requires |sm| > 0 && sm[0] !in tail && page == sm + tail
    ensures ReplaceAll(page, sm, sm + ":") == sm + ":" + tail
  {
    ReplaceAbsent(tail, sm, sm + ":", 0);
    ReplaceFront(sm, tail, sm + ":");
  }

  /** A heading in the middle gains its colon when its letter `dh[k]` occurs nowhere else. */
  lemma MiddleColonised(pre: string, dh: string, post: string, k: nat, text: string)
    requires k < |dh| && dh[k] !in pre && dh[k] !in dh[..k] && dh[k] !in post && text == pre + (dh + post)
    ensures ReplaceAll(text, dh, dh + ":") == pre + (dh + ":" + post)
  {
    var x := dh + post;
    assert x[..k] == dh[..k];
    ReplaceAfter(pre, x, dh, dh + ":", k);
    ReplaceFront(dh, post, dh + ":");
    ReplaceAbsent(post, dh, dh + ":", k);
  }

  /** Each heading gains its colon, once: `sm[0]` and `dh[k]` occur nowhere else. */
  lemma HeadingsColonised(sm: string, dh: string, em: string, entry: string, k: nat, page: string)
    requires |sm| > 0 && sm[0] !in dh && sm[0] !in entry && sm[0] !in em && sm[0] != '\n'
    requires k < |dh| && dh[k] !in sm && dh[k] != ':' && dh[k] != '\n' && dh[k] !in dh[..k]
    requires dh[k] !in entry && dh[k] !in em
    requires page == sm + "\n" + dh + "\n" + entry + "\n" + em
    ensures ReplaceAll(ReplaceAll(page, sm, sm + ":"), dh, dh + ":")
      == sm + ":" + "\n" + dh + ":" + "\n" + entry + "\n" + em
  {
    var post := "\n" + entry + "\n" + em;
    var tail := "\n" + (dh + post);
    assert page == sm + tail;
    FrontColonised(sm, tail, page);
    var pre := sm + ":" + "\n";
    assert sm + ":" + tail == pre + (dh + post);
    MiddleColonised(pre, dh, post, k, ReplaceAll(page, sm, sm + ":"));
    assert pre + (dh + ":" + post) == sm + ":" + "\n" + dh + ":" + "\n" + entry + "\n" + em;
  }

  /** A string that starts the text is found at 0. */
  lemma FindFront(s: string, p: string, rest: string)
    requires |p| > 0 && s == p + rest
    ensures Find(s, p) == 0
  {
    assert s[..|p|] == p;
    FindFirstAt(s, p, 0);
  }

  /** A string found right after text that lacks its first character is found there. */
  lemma FindAfter(s: string, before: string, p: string)
    requires |p| > 0 && p[0] !in before && s == before + p
    ensures Find(s, p) == |before|
  {
    assert s[..|before|] == before && s[|before|..|before| + |p|] == p;
    FindFirstAt(s, p, |before|);
  }

  /** Where the headings are, before and after the colons go in. */
  lemma HeadingsFound(sm: string, dh: string, em: string, entry: string, page: string, c: string)
    requires |sm| > 0 && |em| > 0 && em[0] !in sm && em[0] !in dh && em[0] !in entry && em[0] != '\n' && em[0] != ':'
    requires page == sm + "\n" + dh + "\n" + entry + "\n" + em
    requires c == sm + ":" + "\n" + dh + ":" + "\n" + entry + "\n" + em
    ensures Find(page, sm) == 0 && Find(page, em) == |sm| + |dh| + |entry| + 3
    ensures Find(c, sm + ":") + |sm + ":"| == |sm| + 1 && Find(c, em) == |sm| + |dh| + |entry| + 5
  {
    FindFront(page, sm, "\n" + dh + "\n" + entry + "\n" + em);
    FindAfter(page, sm + "\n" + dh + "\n" + entry + "\n", em);
    FindFront(c, sm + ":", "\n" + dh + ":" + "\n" + entry + "\n" + em);
    FindAfter(c, sm + ":" + "\n" + dh + ":" + "\n" + entry + "\n", em);
  }

  /** The two cuts of the colonised page: up to the end heading's old place and up to its new one. */
  lemma Cuts(sm: string, dh: string, em: string, entry: string, c: string)
    requires |entry| > 0 && c == sm + ":" + "\n" + dh + ":" + "\n" + entry + "\n" + em
    ensures PySlice(c, |sm| + 1, |sm| + |dh| + |entry| + 3) == "\n" + dh + ":" + "\n" + entry[..|entry| - 1] + ""
    ensures PySlice(c, |sm| + 1, |sm| + |dh| + |entry| + 5) == "\n" + dh + ":" + "\n" + entry + "\n"
  {
    var mid := "\n" + dh + ":" + "\n" + entry + "\n";
    assert c == sm + ":" + mid + em;
    assert c[|sm| + 1..|sm| + 1 + |mid|] == mid;
    assert mid[..|mid| - 2] == "\n" + dh + ":" + "\n" + entry[..|entry| - 1] + "";
  }

  /** Stripping, dropping the first `dh:` and stripping again leaves the body. */
  lemma DropHeading(dh: string, body: string, v: string, slice: string)
    requires dh != [] && !IsSpace(dh[0])
    requires body != [] && !IsSpace(body[0]) && !IsSpace(body[|body| - 1]) && AllSpace(v)
    requires slice == "\n" + dh + ":" + "\n" + body + v
    ensures Strip(ReplaceFirst(Strip(slice), dh + ":", "")) == body
  {
    var p := dh + ":";
    var rest := "\n" + body;
    var x := p + rest;
    assert slice == "\n" + x + v;
    assert x[0] == dh[0] && x[|x| - 1] == body[|body| - 1];
    StripAround("\n", x, v);
    FindFront(x, p, rest);
    assert x[|p|..] == rest;
    assert ReplaceFirst(x, p, "") == rest;
    assert rest == "\n" + body + "";
    StripAround("\n", body, "");
  }

  /**
   * What both versions of `process_document` make of the colonised page:
   * `start` is just past `sm:`, `early` is the end heading's place before the
   * colons went in and `late` its place after.
   */
  lemma BothSections(sm: string, dh: string, em: string, entry: string, c: string, start: int, early: int, late: int)
    requires dh != [] && !IsSpace(dh[0])
    requires |entry| >= 2 && !IsSpace(entry[0]) && !IsSpace(entry[|entry| - 2]) && !IsSpace(entry[|entry| - 1])
    requires c == sm + ":" + "\n" + dh + ":" + "\n" + entry + "\n" + em
    requires start == |sm| + 1 && early == |sm| + |dh| + |entry| + 3 && late == |sm| + |dh| + |entry| + 5
    ensures Strip(ReplaceFirst(Strip(PySlice(c, start, early)), dh + ":", "")) == entry[..|entry| - 1]
    ensures Strip(ReplaceFirst(Strip(PySlice(c, start, late)), dh + ":", "")) == entry
  {
    var body := entry[..|entry| - 1];
    assert body[0] == entry[0] && body[|body| - 1] == entry[|entry| - 2];
    Cuts(sm, dh, em, entry, c);
    DropHeading(dh, body, "", PySlice(c, start, early));
    DropHeading(dh, entry, "\n", PySlice(c, start, late));
  }

  // ---------------------------------------------------------------------------
  // The page of the finding

  /** The letters the positions of the headings hinge on. */
  lemma StartLetters()
    ensures |StartMarker| == 19 && StartMarker[0] == 'O' && 'h' !in StartMarker && 'S' !in StartMarker
  {
  }

  lemma DueLetters()
    ensures |DueHeading| == 24 && !IsSpace(DueHeading[0]) && DueHeading[13] == 'h'
    ensures 'O' !in DueHeading && 'h' !in DueHeading[..13] && 'S' !in DueHeading
  {
  }

  lemma EndLetters()
    ensures EndMarker[0] == 'S' && 'O' !in EndMarker && 'h' !in EndMarker
  {
  }

  /** The headings with their colons and where each is found. */
  lemma PageShape(entry: string)
    requires PlainEntry(entry)
    ensures Colonised(Page(entry)) == StartMarker + ":" + "\n" + DueHeading + ":" + "\n" + entry + "\n" + EndMarker
    ensures !IsSpace(DueHeading[0]) && HasMarkers(Page(entry))
    ensures Find(Page(entry), EndMarker) == |StartMarker| + |DueHeading| + |entry| + 3
    ensures Find(Colonised(Page(entry)), StartMarker + ":") + |StartMarker + ":"| == |StartMarker| + 1
    ensures Find(Colonised(Page(entry)), EndMarker) == |StartMarker| + |DueHeading| + |entry| + 5
  {
    StartLetters();
    DueLetters();
    EndLetters();
    HeadingsColonised(StartMarker, DueHeading, EndMarker, entry, 13, Page(entry));
    HeadingsFound(StartMarker, DueHeading, EndMarker, entry, Page(entry), Colonised(Page(entry)));
  }

  /** The section as the code computes it loses the entry's last character. */
  lemma SectionDropsLastCharacter(entry: string)
    requires PlainEntry(entry)
    ensures SectionAsWritten(Page(entry)) == Some(entry[..|entry| - 1])
  {
    PageShape(entry);
    var c := Colonised(Page(entry));
    BothSections(StartMarker, DueHeading, EndMarker, entry, c, Find(c, StartMarker + ":") + |StartMarker + ":"|,
                 Find(Page(entry), EndMarker), Find(c, EndMarker));
  }

  /** The section cut where `Submitted Assignments` is in the sliced text is exactly the entry. */
  lemma SectionKeepsEntry(entry: string)
    requires PlainEntry(entry)
    ensures Section(Page(entry)) == Some(entry)
  {
    PageShape(entry);
    var c := Colonised(Page(entry));
    BothSections(StartMarker, DueHeading, EndMarker, entry, c, Find(c, StartMarker + ":") + |StartMarker + ":"|,
                 Find(Page(entry), EndMarker), Find(c, EndMarker));
  }

  /** The due text is its opening part and a `)`, and only that `)` closes anything. */
  lemma DueOpen(g: DateGroup, w: Gaps) returns (open: string)
    requires WellFormedGroup(g) && forall k :: 0 <= k < 3 ==> IsAsciiLetter(g.month[k])
    requires WellGaps(w)
    ensures DueText(g, w) == open + ")" && ')' !in open && open != [] && !IsSpace(open[|open| - 1])
  {
    DigitsNoParen(g.day);
    DigitsNoParen(g.year);
    assert ')' !in g.month by {
      assert forall k | 0 <= k < 3 :: g.month[k] != ')';
    }
    SpaceNoParen(w.afterDue);
    SpaceNoParen(w.afterDay);
    SpaceNoParen(w.afterMonth);
    open := "(Due" + w.afterDue + g.day + w.afterDay + g.month + w.afterMonth + g.year;
    assert open[|open| - 1] == g.year[3];
  }

  /** What comes before the due text has no `)` and starts with the code. */
  lemma InlineHead(c1: string, c2: string, s1: string, title: string, s2: string)
    requires WordRun(c1) && WordRun(c2) && SpaceRun(s1) && AllSpace(s2) && ')' !in title
    ensures var head := c1 + "/" + c2 + ":" + s1 + title + s2;
      head != [] && !IsSpace(head[0]) && ')' !in head
  {
    WordNoParen(c1);
    WordNoParen(c2);
    SpaceNoParen(s1);
    SpaceNoParen(s2);
    assert (c1 + "/" + c2 + ":" + s1 + title + s2)[0] == c1[0];
  }

  /** An inline entry is a text without `)` followed by the `)`, and it neither starts nor ends with a blank. */
  lemma InlineShape(c1: string, c2: string, s1: string, title: string, s2: string, g: DateGroup, w: Gaps) returns (cut: string)
    requires WordRun(c1) && WordRun(c2) && SpaceRun(s1) && AllSpace(s2) && ')' !in title
    requires WellFormedGroup(g) && forall k :: 0 <= k < 3 ==> IsAsciiLetter(g.month[k])
    requires WellGaps(w)
    ensures var entry := InlineText(c1, c2, s1, title, s2, g, w);
      entry == cut + ")" && ')' !in cut && cut != [] && !IsSpace(cut[0]) && !IsSpace(cut[|cut| - 1])
  {
    var head := c1 + "/" + c2 + ":" + s1 + title + s2;
    InlineHead(c1, c2, s1, title, s2);
    var open := DueOpen(g, w);
    cut := head + open;
    assert cut[0] == head[0] && cut[|cut| - 1] == open[|open| - 1];
  }

  /** An inline entry ends in its date's last digit and `)`; without the `)` it is no inline entry. */
  lemma InlineCut(c1: string, c2: string, s1: string, title: string, s2: string, g: DateGroup, w: Gaps)
    requires WordRun(c1) && WordRun(c2) && SpaceRun(s1) && AllSpace(s2)
    requires title != [] && !IsSpace(title[0]) && !IsSpace(title[|title| - 1]) && '(' !in title && ')' !in title
    requires WellFormedGroup(g) && forall k :: 0 <= k < 3 ==> IsAsciiLetter(g.month[k])
    requires WellGaps(w)
    ensures var entry := InlineText(c1, c2, s1, title, s2, g, w);
      |entry| >= 2 && !IsSpace(entry[0]) && !IsSpace(entry[|entry| - 2]) && !IsSpace(entry[|entry| - 1])
      && MatchInline(entry).Some? && MatchInline(entry[..|entry| - 1]).None?
  {
    InlineRecognised(c1, c2, s1, title, s2, g, w);
    var cut := InlineShape(c1, c2, s1, title, s2, g, w);
    var entry := cut + ")";
    assert entry[..|entry| - 1] == cut && entry[0] == cut[0] && entry[|entry| - 2] == cut[|cut| - 1];
    NoCloseNoInline(cut);
  }
}
