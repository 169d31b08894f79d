/**
 * The private journal (src/components/tabs/JournalTab.tsx): search over the
 * signed-in user's entries, the entry form with its tag list, and the Markdown export.
 */
module Journal {
  import opened Wrappers
  import opened Text
  import opened Seqs
  import opened Entities
  import opened Store

  /** Whether the entry belongs to the signed-in user (nobody signed in: none does). */
  predicate OwnEntry(viewer: Option<User>, e: JournalEntry) {
    viewer.Some? && e.userId == viewer.value.id
  }

  /** The search box: an empty query keeps everything; otherwise the content or some tag must contain it, ignoring case. */
  predicate MatchesQuery(e: JournalEntry, query: string) {
    query == "" ||
    Contains(Lower(e.content), Lower(query)) ||
    exists k :: 0 <= k < |e.tags| && Contains(Lower(e.tags[k]), Lower(query))
  }

  /** Whether an entry is listed at all: both filters at once. */
  predicate Listed(viewer: Option<User>, query: string, e: JournalEntry) {
    OwnEntry(viewer, e) && MatchesQuery(e, query)
  }

  /** The reference subset: the listed entries in stored order, by a single filter. */
  function ListedEntries(entries: seq<JournalEntry>, viewer: Option<User>, query: string): (r: seq<JournalEntry>)
    ensures forall i :: 0 <= i < |r| ==> r[i] in entries && Listed(viewer, query, r[i])
    ensures forall i :: 0 <= i < |entries| && Listed(viewer, query, entries[i]) ==> entries[i] in r
  {
    Filter(entries, (e: JournalEntry) => Listed(viewer, query, e))
  }

  function EntryCreatedAt(e: JournalEntry): int { e.createdAt }

  /**
   * `userEntries`: the signed-in user's entries that match the query, newest first;
   * a reordering of exactly the listed entries.
   */
  function UserEntries(entries: seq<JournalEntry>, viewer: Option<User>, query: string): (r: seq<JournalEntry>)
    ensures multiset(r) == multiset(ListedEntries(entries, viewer, query))
    ensures SortedDesc(r, EntryCreatedAt)
  {
    var own := Filter(entries, (e: JournalEntry) => OwnEntry(viewer, e));
    var found := Filter(own, (e: JournalEntry) => MatchesQuery(e, query));
    FilterTwice(entries, (e: JournalEntry) => OwnEntry(viewer, e), (e: JournalEntry) => MatchesQuery(e, query),
                (e: JournalEntry) => Listed(viewer, query, e));
    SortDesc(found, EntryCreatedAt)
  }

  /** What the list shows: an entry is there iff it is the user's and matches. */
  lemma UserEntriesMembers(entries: seq<JournalEntry>, viewer: Option<User>, query: string, e: JournalEntry)
    ensures e in UserEntries(entries, viewer, query) <==> e in entries && Listed(viewer, query, e)
  {
    var r := UserEntries(entries, viewer, query);
    var listed := ListedEntries(entries, viewer, query);
    ListedMembers(entries, viewer, query, e);
    assert e in r <==> e in multiset(r);
    assert e in listed <==> e in multiset(listed);
  }

  /** The reference subset holds an entry iff it is stored, the user's and matching. */
  lemma ListedMembers(entries: seq<JournalEntry>, viewer: Option<User>, query: string, e: JournalEntry)
    ensures e in ListedEntries(entries, viewer, query) <==> e in entries && Listed(viewer, query, e)
  {
    var listed := ListedEntries(entries, viewer, query);
    if e in listed {
      var j :| 0 <= j < |listed| && listed[j] == e;
    }
    if e in entries && Listed(viewer, query, e) {
      var i :| 0 <= i < |entries| && entries[i] == e;
    }
  }

  /** With an empty query every one of the user's entries is listed, and only those. */
  lemma EmptyQueryListsAll(entries: seq<JournalEntry>, viewer: Option<User>, e: JournalEntry)
    ensures e in UserEntries(entries, viewer, "") <==> e in entries && OwnEntry(viewer, e)
  {
    UserEntriesMembers(entries, viewer, "", e);
  }

  /** One exported entry: date header, content, the tags joined by ", ", and a rule. */
  function ExportBlock(e: JournalEntry, formatDate: Timestamp -> string): (b: string)
    ensures var h := formatDate(e.createdAt);
      |b| == 18 + |h| + |e.content| + |Join(e.tags, ", ")| &&
      b[..2] == "# " && b[2..2 + |h|] == h && b[2 + |h|..4 + |h|] == "\n\n" &&
      b[4 + |h|..4 + |h| + |e.content|] == e.content &&
      b[4 + |h| + |e.content|..12 + |h| + |e.content|] == "\n\nTags: " &&
      b[12 + |h| + |e.content|..|b| - 6] == Join(e.tags, ", ") &&
      b[|b| - 6..] == "\n\n---\n"
  {
    "# " + formatDate(e.createdAt) + "\n\n" + e.content + "\n\nTags: " + Join(e.tags, ", ") + "\n\n---\n"
  }

  /** `exportJournal`'s text: the blocks of the listed entries, one after another, separated by a newline. */
  function ExportMarkdown(shown: seq<JournalEntry>, formatDate: Timestamp -> string): (md: string)
    ensures shown == [] ==> md == ""
  {
    Join(Blocks(shown, formatDate), "\n")
  }

  /** The blocks of some entries, in order. */
  function Blocks(shown: seq<JournalEntry>, formatDate: Timestamp -> string): (bs: seq<string>)
    ensures |bs| == |shown|
    ensures forall i :: 0 <= i < |shown| ==> bs[i] == ExportBlock(shown[i], formatDate)
  {
    seq(|shown|, i requires 0 <= i < |shown| => ExportBlock(shown[i], formatDate))
  }

  /** The export of one more entry is the earlier export, a newline, and the new entry's block. */
  lemma ExportSnoc(shown: seq<JournalEntry>, formatDate: Timestamp -> string)
    ensures |shown| == 1 ==> ExportMarkdown(shown, formatDate) == ExportBlock(shown[0], formatDate)
    ensures |shown| > 1 ==> (ExportMarkdown(shown, formatDate) ==
      ExportMarkdown(shown[..|shown| - 1], formatDate) + "\n" + ExportBlock(shown[|shown| - 1], formatDate))
  {
    if |shown| > 1 {
      BlocksPrefix(shown, formatDate);
    }
  }

  /** The blocks of all entries but the last are the blocks of all entries, but the last. */
  lemma BlocksPrefix(shown: seq<JournalEntry>, formatDate: Timestamp -> string)
    requires shown != []
    ensures Blocks(shown[..|shown| - 1], formatDate) == Blocks(shown, formatDate)[..|shown| - 1]
  {
    var init, bs := Blocks(shown[..|shown| - 1], formatDate), Blocks(shown, formatDate);
    forall i | 0 <= i < |init| ensures init[i] == bs[i] {
      assert shown[..|shown| - 1][i] == shown[i];
    }
  }

  /** The export is as long as its blocks plus one newline between each two, so it holds nothing else. */
  lemma ExportLength(shown: seq<JournalEntry>, formatDate: Timestamp -> string)
    requires shown != []
    ensures |ExportMarkdown(shown, formatDate)| == TotalLength(Blocks(shown, formatDate)) + |shown| - 1
  {
    JoinLength(Blocks(shown, formatDate), "\n");
  }

  /** The entry form: the text, its tags, the tag being typed, and which entry is being edited. */
  class JournalForm {
    var open: bool
    var editing: Option<Id>
    var content: string
    var tags: seq<string>
    var tagInput: string

    /** An empty, closed form. */
    constructor ()
      ensures !open && editing == None && content == "" && tags == [] && tagInput == ""
    {
      open, editing, content, tags, tagInput := false, None, "", [], "";
    }

    /**
     * `handleAddTag`: appends the trimmed input and clears it, but only when it is
     * non-blank and not yet a tag; otherwise nothing changes. A list without
     * repeats stays without repeats.
     */
    method AddTag()
      modifies this`tags, this`tagInput
      ensures var t := Trim(old(tagInput));
        if t != "" && t !in old(tags) then tags == old(tags) + [t] && tagInput == ""
        else tags == old(tags) && tagInput == old(tagInput)
      ensures NoDup(old(tags)) ==> NoDup(tags)
    {
      var t := Trim(tagInput);
      if t != "" && t !in tags {
        tags := tags + [t];
        tagInput := "";
      }
    }

    /** `handleRemoveTag`: removes every copy of the tag and keeps the others in order. */
    method RemoveTag(tag: string)
      modifies this`tags
      ensures tags == Erase(old(tags), tag)
      ensures tag !in tags
      ensures NoDup(old(tags)) ==> NoDup(tags)
    {
      if NoDup(tags) {
        EraseNoDup(tags, tag);
      }
      tags := Erase(tags, tag);
    }

    /** `handleEdit`: opens the form on an existing entry. */
    method Edit(e: JournalEntry)
      modifies this`content, this`tags, this`editing, this`open
      ensures content == e.content && tags == e.tags && editing == Some(e.id) && open
    {
      content, tags, editing, open := e.content, e.tags, Some(e.id), true;
    }

    /**
     * `handleSave`: does nothing for content that is blank after trimming or without
     * a signed-in user. Editing (a non-empty id: the source tests it for truthiness) replaces only the content and tags of that entry;
     * otherwise a new entry (no mood) is appended under a fresh id. Then the form
     * is reset (the tag being typed is kept).
     */
    method Save(store: NexusStore, now: Timestamp)
      requires store.Valid()
      modifies this`content, this`tags, this`editing, this`open, store`journalEntries
      ensures store.Valid()
      ensures Trim(old(content)) == "" || store.currentUser.None? ==>
        store.journalEntries == old(store.journalEntries) &&
        content == old(content) && tags == old(tags) && editing == old(editing) && open == old(open)
      ensures Trim(old(content)) != "" && store.currentUser.Some? ==>
        content == "" && tags == [] && editing == None && !open
      ensures Trim(old(content)) != "" && store.currentUser.Some? && old(editing).Some? && old(editing).value != "" ==>
        |store.journalEntries| == |old(store.journalEntries)| &&
        forall i :: 0 <= i < |store.journalEntries| ==>
          store.journalEntries[i] == if old(store.journalEntries)[i].id == old(editing).value
            then old(store.journalEntries)[i].(content := old(content), tags := old(tags))
            else old(store.journalEntries)[i]
      ensures Trim(old(content)) != "" && store.currentUser.Some? && (old(editing).None? || old(editing).value == "") ==>
        |store.journalEntries| == |old(store.journalEntries)| + 1 &&
        store.journalEntries[..|old(store.journalEntries)|] == old(store.journalEntries) &&
        var added := store.journalEntries[|old(store.journalEntries)|];
        added == JournalEntry(added.id, store.currentUser.value.id, old(content), old(tags), None, now) &&
        added.id !in Keys(old(store.journalEntries), JournalId)
    {
      if Trim(content) == "" || store.currentUser.None? {
        return;
      }
      if editing.Some? && editing.value != "" {
        store.UpdateJournalEntry(editing.value, NoJournalChange.(content := Some(content), tags := Some(tags)));
      } else {
        store.AddJournalEntry(JournalEntry("", store.currentUser.value.id, content, tags, None, now));
      }
      content, tags, editing, open := "", [], None, false;
    }
  }
}
