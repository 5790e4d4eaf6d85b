/** What one git commit of a store version is made of: the author string,
    the message, and the timestamp text. */
module Composer {
  import opened Wrappers
  import opened Text
  import opened Decimal
  import opened Settings
  import opened History

  // ---------------------------------------------------------------------------
  // Author resolution.

  /** `i` is the first row of `authors` whose user is exactly `author`. */
  predicate FirstMatchAt(authors: seq<AuthorEntry>, author: string, i: int) {
    0 <= i < |authors| && authors[i].user == author
    && forall j :: 0 <= j < i ==> authors[j].user != author
  }

  /** The e-mail of the first row for `author`, if there is one. */
  function MatchingEmail(authors: seq<AuthorEntry>, author: string): (r: Option<string>)
    ensures r.None? <==> forall i :: 0 <= i < |authors| ==> authors[i].user != author
    ensures r.Some? ==> exists i :: FirstMatchAt(authors, author, i) && authors[i].email == r.value
  {
    if |authors| == 0 then None
    else if authors[0].user == author then
      assert FirstMatchAt(authors, author, 0);
      Some(authors[0].email)
    else
      var r := MatchingEmail(authors[1..], author);
      assert forall i :: 1 <= i < |authors| ==> authors[i] == authors[1..][i - 1];
      if r.Some? then
        var i :| FirstMatchAt(authors[1..], author, i) && authors[1..][i].email == r.value;
        assert FirstMatchAt(authors, author, i + 1);
        r
      else r
  }

  /** The git author `name <mail>` for a store user: the name is the store
      user unchanged; the mail is that of the first matching row of
      `storage.authors`, or `git.default_user_email` when no row matches. */
  function GitAuthor(conf: Config, author: string): (r: string)
    ensures forall i :: FirstMatchAt(conf.storage.authors, author, i)
                        ==> r == author + " <" + conf.storage.authors[i].email + ">"
    ensures (forall i :: 0 <= i < |conf.storage.authors| ==> conf.storage.authors[i].user != author)
            ==> r == author + " <" + conf.git.defaultUserEmail + ">"
  {
    author + " <" + MatchingEmail(conf.storage.authors, author).GetOr(conf.git.defaultUserEmail) + ">"
  }

  // ---------------------------------------------------------------------------
  // Commit message.

  const AddedTitle: string := "Добавлено:\n"
  const ChangedTitle: string := "Изменено:\n"

  /** One line ` name\n` per object, in list order. */
  function ObjectLines(objects: seq<string>): string {
    if |objects| == 0 then "" else " " + objects[0] + "\n" + ObjectLines(objects[1..])
  }

  /** A section: its title line, then the object lines. Nothing is cut short. */
  function Section(title: string, objects: seq<string>): string {
    title + ObjectLines(objects)
  }

  lemma {:induction false} ObjectLinesAppend(objects: seq<string>, x: string)
    ensures ObjectLines(objects + [x]) == ObjectLines(objects) + " " + x + "\n"
  {
    if |objects| > 0 {
      assert (objects + [x])[1..] == objects[1..] + [x];
      ObjectLinesAppend(objects[1..], x);
    } else {
      assert (objects + [x])[1..] == [];
    }
  }

  /** The section as the source accumulates it: start from the title and
      append ` name\n` for each object in turn. */
  method BuildSection(title: string, objects: seq<string>) returns (s: string)
    ensures s == Section(title, objects)
  {
    s := title;
    var i := 0;
    while i < |objects|
      invariant 0 <= i <= |objects|
      invariant s == title + ObjectLines(objects[..i])
    {
      ObjectLinesAppend(objects[..i], objects[i]);
      assert objects[..i + 1] == objects[..i] + [objects[i]];
      s := s + " " + objects[i] + "\n";
      i := i + 1;
    }
    assert objects[..i] == objects;
  }

  /** Reads object lines back: each must start with a space and end at the
      next newline. */
  function ParseObjectLines(s: string): Option<seq<string>>
    decreases |s|
  {
    if |s| == 0 then Some([])
    else if s[0] != ' ' || '\n' !in s then None
    else
      var i := IndexOf(s, '\n');
      match ParseObjectLines(s[i + 1..])
      case None => None
      case Some(rest) => Some([s[1..i]] + rest)
  }

  /** Reads a section back, given its title. */
  function ParseSection(title: string, s: string): Option<seq<string>> {
    if StartsWith(s, title) then ParseObjectLines(s[|title|..]) else None
  }

  predicate NoNewlines(objects: seq<string>) {
    forall i :: 0 <= i < |objects| ==> '\n' !in objects[i]
  }

  /** The first line of `" " + x + "\n" + rest` is read back as `x`, and the
      reading goes on with `rest`. */
  lemma ParseFirstLine(x: string, rest: string)
    requires '\n' !in x
    ensures ParseObjectLines(" " + x + "\n" + rest) ==
            match ParseObjectLines(rest)
            case None => None
            case Some(more) => Some([x] + more)
  {
    var s := " " + x + "\n" + rest;
    assert s[|x| + 1] == '\n';
    var i := IndexOf(s, '\n');
    assert s[..|x| + 1] == " " + x;
    assert i == |x| + 1;
    assert s[1..i] == x;
    assert s[i + 1..] == rest;
  }

  /** Object names without newlines are read back exactly, in order. */
  lemma {:induction false} ObjectLinesRoundTrip(objects: seq<string>)
    requires NoNewlines(objects)
    ensures ParseObjectLines(ObjectLines(objects)) == Some(objects)
  {
    if |objects| > 0 {
      ParseFirstLine(objects[0], ObjectLines(objects[1..]));
      ObjectLinesRoundTrip(objects[1..]);
      assert [objects[0]] + objects[1..] == objects;
    }
  }

  lemma SectionRoundTrip(title: string, objects: seq<string>)
    requires NoNewlines(objects)
    ensures ParseSection(title, Section(title, objects)) == Some(objects)
  {
    StartsWithConcat(title, ObjectLines(objects));
    assert Section(title, objects)[|title|..] == ObjectLines(objects);
    ObjectLinesRoundTrip(objects);
  }

  /** First line of the message: version number, version label, comment. */
  function Header(version: int, rec: VersionRecord): string {
    "storage ver:" + ShowInt(version) + rec.versionLabel + ": " + rec.comment
  }

  /** A message with the given header line: the header and a blank line, the
      added-objects section, one space, the changed-objects section, and a
      final newline. */
  function MessageText(header: string, rec: VersionRecord): string {
    header + "\n\n" + Section(AddedTitle, rec.addedObjects)
    + " " + Section(ChangedTitle, rec.changedObjects) + "\n"
  }

  /** The commit message of a version. */
  function CommitMessage(version: int, rec: VersionRecord): (m: string)
    ensures StartsWith(m, "storage ver:" + ShowInt(version))
    ensures EndsWith(m, "\n")
  {
    var m := MessageText(Header(version, rec), rec);
    assert m[..|"storage ver:" + ShowInt(version)|] == "storage ver:" + ShowInt(version);
    m
  }

  /** Where the added section starts in a message with the given header. */
  function AddedStart(header: string): nat {
    |header| + 2
  }

  /** Where the changed section starts in a message with the given header. */
  function ChangedStart(header: string, rec: VersionRecord): nat {
    AddedStart(header) + |Section(AddedTitle, rec.addedObjects)| + 1
  }

  /** A message can be taken apart again: after the header and a blank line
      come all added objects in order, then a space, then all changed objects
      in order, then the final newline. No object is dropped or shortened. */
  lemma MessageDecodes(header: string, rec: VersionRecord)
    requires NoNewlines(rec.addedObjects) && NoNewlines(rec.changedObjects)
    ensures var m := MessageText(header, rec);
            && ChangedStart(header, rec) < |m|
            && m[..AddedStart(header)] == header + "\n\n"
            && ParseSection(AddedTitle, m[AddedStart(header)..ChangedStart(header, rec) - 1])
               == Some(rec.addedObjects)
            && m[ChangedStart(header, rec) - 1] == ' '
            && ParseSection(ChangedTitle, m[ChangedStart(header, rec)..|m| - 1])
               == Some(rec.changedObjects)
            && m[|m| - 1] == '\n'
  {
    var h := header + "\n\n";
    var a := Section(AddedTitle, rec.addedObjects);
    var c := Section(ChangedTitle, rec.changedObjects);
    var m := MessageText(header, rec);
    assert m == h + a + " " + c + "\n";
    MessageParts(h, a, c);
    assert m[AddedStart(header)..ChangedStart(header, rec) - 1] == a;
    assert m[ChangedStart(header, rec)..|m| - 1] == c;
    SectionRoundTrip(AddedTitle, rec.addedObjects);
    SectionRoundTrip(ChangedTitle, rec.changedObjects);
  }

  /** Where the parts of `h + a + " " + c + "\n"` lie. */
  lemma MessageParts(h: string, a: string, c: string)
    ensures var m := h + a + " " + c + "\n";
            && m[..|h|] == h
            && m[|h|..|h| + |a|] == a
            && m[|h| + |a|] == ' '
            && m[|h| + |a| + 1..|m| - 1] == c
            && m[|m| - 1] == '\n'
  {
  }

  /** The commit message of a version decodes into its header and its two
      object lists. */
  lemma CommitMessageDecodes(version: int, rec: VersionRecord)
    requires NoNewlines(rec.addedObjects) && NoNewlines(rec.changedObjects)
    ensures var m := CommitMessage(version, rec);
            var h := Header(version, rec);
            && ChangedStart(h, rec) < |m|
            && m[..AddedStart(h)] == h + "\n\n"
            && ParseSection(AddedTitle, m[AddedStart(h)..ChangedStart(h, rec) - 1])
               == Some(rec.addedObjects)
            && ParseSection(ChangedTitle, m[ChangedStart(h, rec)..|m| - 1])
               == Some(rec.changedObjects)
  {
    MessageDecodes(Header(version, rec), rec);
  }

  // ---------------------------------------------------------------------------
  // Commit plan.

  /** Everything the commit of one version is made from; `stamp` is the text
      `CommitDate + ' ' + CommitTime` the commit date is parsed from. */
  datatype CommitPlan = CommitPlan(author: string, message: string, stamp: string)

  /** The commit of a version: authored by the resolved git author, with the
      version's message, dated by the record's date and time text. */
  function PlanFor(conf: Config, version: int, rec: VersionRecord): (p: CommitPlan)
    ensures p.author == GitAuthor(conf, rec.author)
    ensures StartsWith(p.author, rec.author + " <")
    ensures StartsWith(p.message, Header(version, rec) + "\n\n")
    ensures StartsWith(p.message, "storage ver:" + ShowInt(version))
    ensures p.stamp == rec.commitDate + " " + rec.commitTime
  {
    var p := CommitPlan(GitAuthor(conf, rec.author), CommitMessage(version, rec),
                        rec.commitDate + " " + rec.commitTime);
    assert p.author[..|rec.author + " <"|] == rec.author + " <";
    MessageStartsWithHeader(Header(version, rec), rec);
    p
  }

  lemma MessageStartsWithHeader(header: string, rec: VersionRecord)
    ensures StartsWith(MessageText(header, rec), header + "\n\n")
  {
    var h := header + "\n\n";
    var a := Section(AddedTitle, rec.addedObjects);
    var c := Section(ChangedTitle, rec.changedObjects);
    assert MessageText(header, rec) == h + a + " " + c + "\n";
    MessageParts(h, a, c);
  }
}
