/**
 * The download ledger `/app/state/downloaded.txt` (utils.py:58-86, and the
 * same load and save in grabEmails.py:49-70): a text file of lines `link` or
 * `link --> path`, only ever opened for appending. Loading folds the lines into
 * the set of keys: each non-blank line, stripped, up to its first ` --> `.
 */
module Ledger {
  import opened Optional
  import opened Text

  const Separator: string := " --> "

  /** The line written for a link; an empty filename stands for a falsy one (`None` or `""`). */
  function EntryLine(link: string, filename: string): (line: string)
    ensures link <= line
    ensures line == link <==> filename == ""
  {
    if filename != "" then link + Separator + filename else link
  }

  /** The key a line contributes: `line.strip().split(" --> ")[0]`. */
  function LineKey(line: string): string
  {
    var t := Strip(line);
    match IndexOf(t, Separator)
    case Some(k) => t[..k]
    case None => t
  }

  /** What one line contributes: its key, or nothing when it is blank. */
  function LineKeys(line: string): set<string>
  {
    if Strip(line) != "" then {LineKey(line)} else {}
  }

  /** Keys of a sequence of lines. */
  function KeysOf(lines: seq<string>): set<string>
  {
    if lines == [] then {}
    else KeysOf(lines[..|lines| - 1]) + LineKeys(lines[|lines| - 1])
  }

  /** The set `load_downloaded` builds from the ledger text. */
  function LedgerKeys(text: string): set<string>
  {
    KeysOf(Lines(text))
  }

  /** What a batch of `(link, filename)` pairs appends: one terminated line per pair, in order. */
  function Render(items: seq<(string, string)>): (text: string)
    ensures WellTerminated(text)
    ensures text == "" <==> items == []
  {
    if items == [] then ""
    else
      var last := items[|items| - 1];
      Render(items[..|items| - 1]) + EntryLine(last.0, last.1) + "\n"
  }

  /** The links of a batch. */
  function LinksOf(items: seq<(string, string)>): set<string>
  {
    if items == [] then {} else LinksOf(items[..|items| - 1]) + {items[|items| - 1].0}
  }

  /** A link this program can store and read back: non-empty, without whitespace. */
  predicate IsKeyable(link: string)
  {
    link != [] && NoSpace(link)
  }

  /** A filename that reads back intact after the separator: one line, and not blank unless empty. */
  predicate IsStorableName(filename: string)
  {
    NoBreaks(filename) && (filename == "" || TrimEnd(filename) != "")
  }

  /** An entry that reads back as its own link. */
  predicate IsStorable(item: (string, string))
  {
    IsKeyable(item.0) && IsStorableName(item.1)
  }

  // ---------------------------------------------------------------------
  // Properties of the file format

  /** No separator starts inside a whitespace-free prefix. */
  lemma NoSeparatorIn(link: string, t: string)
    requires NoSpace(link) && link <= t
    ensures forall j :: 0 <= j < |link| ==> !OccursAt(t, Separator, j)
  {
    forall j | 0 <= j < |link| ensures !OccursAt(t, Separator, j) {
      assert t[j] == link[j];
    }
  }

  /** A line holding only a whitespace-free link has that link as its key. */
  lemma KeyOfBareLink(link: string)
    requires IsKeyable(link)
    ensures Strip(link) == link && LineKey(link) == link
  {
    StripNoSpace(link);
    NoSeparatorIn(link, link);
    assert IndexOf(link, Separator).None?;
  }

  /** The first separator after a whitespace-free link is the one right behind it. */
  lemma SeparatorAfterLink(link: string, rest: string)
    requires NoSpace(link)
    ensures IndexOf(link + Separator + rest, Separator) == Some(|link|)
  {
    var t := link + Separator + rest;
    NoSeparatorIn(link, t);
    assert t[|link|..|link| + |Separator|] == Separator;
    assert OccursAt(t, Separator, |link|);
  }

  /** Stripping `link --> path` only trims the end of the path, when the path is not blank. */
  lemma StripEntry(link: string, filename: string)
    requires IsKeyable(link) && TrimEnd(filename) != ""
    ensures Strip(link + (Separator + filename)) == link + (Separator + TrimEnd(filename))
  {
    StripLeadingWord(link, Separator + filename);
    TrimEndBeforeWord(Separator, filename);
  }

  /** A line `link --> path` has the link as its key. */
  lemma KeyOfLinkWithPath(link: string, filename: string)
    requires IsKeyable(link) && TrimEnd(filename) != ""
    ensures Strip(link + Separator + filename) != ""
    ensures LineKey(link + Separator + filename) == link
  {
    StripEntry(link, filename);
    assert link + Separator + filename == link + (Separator + filename);
    assert link + Separator + TrimEnd(filename) == link + (Separator + TrimEnd(filename));
    SeparatorAfterLink(link, TrimEnd(filename));
    var t := link + Separator + TrimEnd(filename);
    assert t[..|link|] == link;
  }

  /** The key of an entry line is its link, whatever the filename. */
  lemma KeyOfEntry(link: string, filename: string)
    requires IsKeyable(link) && IsStorableName(filename)
    ensures LineKeys(EntryLine(link, filename)) == {link}
  {
    if filename != "" {
      KeyOfLinkWithPath(link, filename);
    } else {
      KeyOfBareLink(link);
    }
  }

  lemma KeysOfSnoc(ls: seq<string>, line: string)
    ensures KeysOf(ls + [line]) == KeysOf(ls) + LineKeys(line)
  {
    assert (ls + [line])[..|ls|] == ls;
  }

  lemma {:induction false} KeysOfConcat(a: seq<string>, b: seq<string>)
    ensures KeysOf(a + b) == KeysOf(a) + KeysOf(b)
    decreases |b|
  {
    if b == [] {
      assert a + b == a;
    } else {
      var init := b[..|b| - 1];
      var last := b[|b| - 1];
      assert a + b == (a + init) + [last];
      assert b == init + [last];
      KeysOfSnoc(a + init, last);
      KeysOfSnoc(init, last);
      KeysOfConcat(a, init);
    }
  }

  lemma EntryNoBreaks(link: string, filename: string)
    requires IsKeyable(link) && NoBreaks(filename)
    ensures NoBreaks(EntryLine(link, filename))
  {
    var line := EntryLine(link, filename);
    forall i | 0 <= i < |line| ensures !IsBreak(line[i]) {
      if i < |link| {
        assert line[i] == link[i];
      } else if i >= |link| + |Separator| {
        assert line[i] == filename[i - |link| - |Separator|];
      }
    }
  }

  /** Loading after appending one entry to well-terminated text gives the old keys plus the link. */
  lemma AppendEntryKeys(text: string, link: string, filename: string)
    requires WellTerminated(text) && IsKeyable(link) && IsStorableName(filename)
    ensures LedgerKeys(text + (EntryLine(link, filename) + "\n")) == LedgerKeys(text) + {link}
  {
    var line := EntryLine(link, filename);
    EntryNoBreaks(link, filename);
    LinesAppend(text, line);
    KeysOfSnoc(Lines(text), line);
    KeyOfEntry(link, filename);
  }

  /**
   * A ledger whose last line `link --> path` has lost its newline: the next
   * entry is written onto that line, which keeps the key `link`. The link of
   * the new entry does not become a key.
   */
  lemma JoinedAfterPath(text: string, link: string, filename: string, item: (string, string))
    requires WellTerminated(text) && IsKeyable(link) && filename != "" && IsStorableName(filename) && IsStorable(item)
    ensures LedgerKeys(text + EntryLine(link, filename) + Render([item])) == LedgerKeys(text) + {link}
  {
    var e := EntryLine(item.0, item.1);
    var f := filename + e;
    assert Render([item]) == e + "\n" by {
      assert [item][..0] == [];
    }
    EntryNoBreaks(item.0, item.1);
    assert NoBreaks(f) by {
      assert forall i :: 0 <= i < |f| ==> f[i] == if i < |filename| then filename[i] else e[i - |filename|];
    }
    assert TrimEnd(e) != [] by {
      assert e[0] == item.0[0] && !IsSpace(e[0]);
    }
    TrimEndBeforeWord(filename, e);
    assert TrimEnd(f) != [];
    var line := EntryLine(link, filename);
    assert EntryLine(link, f) == line + e by {
      ConcatAssoc(link + Separator, filename, e);
    }
    ConcatAssoc(text, line, e + "\n");
    ConcatAssoc(line, e, "\n");
    AppendEntryKeys(text, link, f);
  }

  /**
   * A ledger whose last line is a bare link without its newline: the next
   * entry is written onto that line, and the two links read back as one key.
   */
  lemma JoinedAfterBareLink(text: string, link: string, item: (string, string))
    requires WellTerminated(text) && IsKeyable(link) && IsStorable(item)
    ensures LedgerKeys(text + EntryLine(link, "") + Render([item])) == LedgerKeys(text) + {link + item.0}
  {
    assert Render([item]) == EntryLine(item.0, item.1) + "\n" by {
      assert [item][..0] == [];
    }
    var joined := link + item.0;
    assert NoSpace(joined) by {
      forall i | 0 <= i < |joined|
        ensures !IsSpace(joined[i])
      {
        if i < |link| {
          assert joined[i] == link[i];
        } else {
          assert joined[i] == item.0[i - |link|];
        }
      }
    }
    assert EntryLine(joined, item.1) == link + EntryLine(item.0, item.1) by {
      if item.1 != "" {
        ConcatAssoc(link, item.0, Separator);
        ConcatAssoc(link, item.0 + Separator, item.1);
      }
    }
    ConcatAssoc(text + link, EntryLine(item.0, item.1), "\n");
    ConcatAssoc(text, link, EntryLine(item.0, item.1) + "\n");
    ConcatAssoc(link, EntryLine(item.0, item.1), "\n");
    AppendEntryKeys(text, joined, item.1);
  }

  /** `a --> f` left without its newline, then the entry `b --> g`: the ledger has the key `a` only. */
  lemma JoinedExample()
    ensures LedgerKeys("a --> f" + Render([("b", "g")])) == {"a"}
  {
    assert IsKeyable("a") && IsKeyable("b");
    assert TrimEnd("f") != [] && TrimEnd("g") != [] by {
      assert !IsSpace('f') && !IsSpace('g');
    }
    assert EntryLine("a", "f") == "a --> f";
    assert LedgerKeys("") == {};
    JoinedAfterPath("", "a", "f", ("b", "g"));
    assert "" + "a --> f" == "a --> f";
  }

  lemma LinksOfSnoc(items: seq<(string, string)>, item: (string, string))
    ensures LinksOf(items + [item]) == LinksOf(items) + {item.0}
  {
    assert (items + [item])[..|items|] == items;
  }

  /** A link belongs to a batch's links exactly when some item carries it. */
  lemma {:induction false} LinksOfMembers(items: seq<(string, string)>)
    ensures forall l :: l in LinksOf(items) <==> exists i :: 0 <= i < |items| && items[i].0 == l
  {
    if items != [] {
      var init := items[..|items| - 1];
      LinksOfMembers(init);
      assert forall i :: 0 <= i < |init| ==> init[i] == items[i];
    }
  }

  lemma {:induction false} LinksOfConcat(a: seq<(string, string)>, b: seq<(string, string)>)
    ensures LinksOf(a + b) == LinksOf(a) + LinksOf(b)
    decreases |b|
  {
    if b == [] {
      assert a + b == a;
    } else {
      var init := b[..|b| - 1];
      assert a + b == (a + init) + [b[|b| - 1]];
      LinksOfSnoc(a + init, b[|b| - 1]);
      LinksOfConcat(a, init);
    }
  }

  /** Two batches written one after the other read like one batch. */
  lemma {:induction false} RenderConcat(a: seq<(string, string)>, b: seq<(string, string)>)
    ensures Render(a + b) == Render(a) + Render(b)
    decreases |b|
  {
    if b == [] {
      assert a + b == a;
    } else {
      var init := b[..|b| - 1];
      var last := b[|b| - 1];
      assert a + b == (a + init) + [last];
      RenderSnoc(a + init, last);
      RenderConcat(a, init);
      ConcatAssoc(Render(a), Render(init), EntryLine(last.0, last.1) + "\n");
    }
  }

  lemma RenderSnoc(items: seq<(string, string)>, item: (string, string))
    ensures Render(items + [item]) == Render(items) + (EntryLine(item.0, item.1) + "\n")
  {
    assert (items + [item])[..|items|] == items;
  }

  /** One step of a batch: appending the next entry to the rendered prefix. */
  lemma RenderKeysStep(text: string, init: seq<(string, string)>, last: (string, string))
    requires WellTerminated(text + Render(init)) && IsStorable(last)
    requires LedgerKeys(text + Render(init)) == LedgerKeys(text) + LinksOf(init)
    ensures WellTerminated(text + Render(init + [last]))
    ensures LedgerKeys(text + Render(init + [last])) == LedgerKeys(text) + LinksOf(init + [last])
  {
    var before := text + Render(init);
    var entry := EntryLine(last.0, last.1) + "\n";
    RenderSnoc(init, last);
    ConcatAssoc(text, Render(init), entry);
    AppendEntryKeys(before, last.0, last.1);
    LinksOfSnoc(init, last);
  }

  /** Appending a batch to well-terminated text adds exactly the batch's links to the keys, and leaves the text well-terminated. */
  lemma {:induction false} RenderKeys(text: string, items: seq<(string, string)>)
    requires WellTerminated(text)
    requires forall i :: 0 <= i < |items| ==> IsStorable(items[i])
    ensures WellTerminated(text + Render(items))
    ensures LedgerKeys(text + Render(items)) == LedgerKeys(text) + LinksOf(items)
    decreases |items|
  {
    if items == [] {
      assert text + Render(items) == text;
      assert LinksOf(items) == {};
    } else {
      var init := items[..|items| - 1];
      var last := items[|items| - 1];
      assert items == init + [last];
      assert forall i :: 0 <= i < |init| ==> init[i] == items[i];
      RenderKeys(text, init);
      RenderKeysStep(text, init, last);
    }
  }

  /** A ledger file: whether it exists, and its text (empty while it does not). */
  class LedgerFile {
    var present: bool
    var text: string

    ghost predicate Valid()
      reads this
    {
      present || text == ""
    }

    constructor (present: bool, text: string)
      requires present || text == ""
      ensures Valid() && this.present == present && this.text == text
    {
      this.present := present;
      this.text := text;
    }

    /** `load_downloaded()`: the keys of the file, none when it is absent. */
    method Load() returns (keys: set<string>)
      requires Valid()
      ensures keys == LedgerKeys(text)
    {
      if !present {
        return {};
      }
      var lines := Lines(text);
      keys := {};
      var i := 0;
      while i < |lines|
        invariant 0 <= i <= |lines|
        invariant keys == KeysOf(lines[..i])
      {
        var line := lines[i];
        assert lines[..i + 1][..i] == lines[..i];
        if Strip(line) != "" {
          keys := keys + {LineKey(line)};
        }
        assert keys == KeysOf(lines[..i]) + LineKeys(line);
        i := i + 1;
      }
      assert lines[..i] == lines;
    }

    /** Opening in append mode and writing `s`: creates the file when it is absent. */
    method Append(s: string)
      requires Valid()
      modifies this
      ensures Valid() && present && text == old(text) + s
    {
      present := true;
      text := text + s;
    }

    /** `save_downloaded(link, filename)`: one guarded append. */
    method Save(link: string, filename: string)
      requires Valid()
      modifies this
      ensures Valid()
      ensures link in old(LedgerKeys(text)) ==> present == old(present) && text == old(text)
      ensures link !in old(LedgerKeys(text)) ==> present && text == old(text) + (EntryLine(link, filename) + "\n")
    {
      var existing := Load();
      if link in existing {
        return;
      }
      Append(EntryLine(link, filename) + "\n");
      assert text == old(text) + (EntryLine(link, filename) + "\n");
    }

    /** `save_downloaded_batch(items)`: one unguarded line per item, in order, no deduplication. */
    method SaveBatch(items: seq<(string, string)>)
      requires Valid()
      modifies this
      ensures Valid() && present && text == old(text) + Render(items)
    {
      present := true;
      var i := 0;
      while i < |items|
        invariant 0 <= i <= |items|
        invariant Valid() && present
        invariant text == old(text) + Render(items[..i])
      {
        var (link, filename) := items[i];
        assert items[..i + 1] == items[..i] + [items[i]];
        RenderSnoc(items[..i], items[i]);
        ConcatAssoc(old(text), Render(items[..i]), EntryLine(link, filename) + "\n");
        text := text + (EntryLine(link, filename) + "\n");
        i := i + 1;
      }
      assert items[..i] == items;
    }
  }

  /** Saving a keyable link into a well-terminated ledger makes it a key and keeps every earlier key. */
  lemma SaveRoundTrip(text: string, link: string, filename: string)
    requires WellTerminated(text) && IsKeyable(link) && IsStorableName(filename)
    ensures var after := if link in LedgerKeys(text) then text else text + (EntryLine(link, filename) + "\n");
            LedgerKeys(after) == LedgerKeys(text) + {link}
  {
    if link !in LedgerKeys(text) {
      AppendEntryKeys(text, link, filename);
    }
  }
}
