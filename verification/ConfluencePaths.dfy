/**
 Where the Confluence mirror puts its files: the relative path of a page or an
 attachment, the docs store's path check, and the fact the mirror depends on,
 that a path names the one item it belongs to.
 */
module ConfluencePaths {
  import opened Prelude
  import opened Text

  datatype Kind = Page | Attachment

  datatype Key = Key(kind: Kind, id: string)

  // `replace("\\", "/")`.
  function Slashes(s: string): string {
    seq(|s|, i requires 0 <= i < |s| => if s[i] == '\\' then '/' else s[i])
  }

  function Clean(parts: seq<string>): seq<string> {
    if parts == [] then []
    else (if parts[0] == "" || parts[0] == "." then [] else [parts[0]]) + Clean(parts[1..])
  }

  function CheckedParts(parts: seq<string>): Option<string> {
    if ".." in parts || Clean(parts) == [] then None else Some(Join(Clean(parts), "/"))
  }

  function Checked(r: string): Option<string> {
    if r != [] && r[0] == '/' then None else CheckedParts(Split(r, '/'))
  }

  /** `safe_rel`: None where the store raises. */
  function SafeRel(rel: string): Option<string> {
    Checked(Strip(Slashes(rel)))
  }

  const UNDER := "attachments/"

  function Root(ns: string): string {
    "confluence/" + ns + "/"
  }

  // The path before the store's check, for a listener namespace `ns`.
  function RawPath(ns: string, slug: string -> string, key: Key, title: string): string {
    match key.kind
    case Page => Root(ns) + (slug(title) + "-" + key.id + ".md")
    case Attachment => Root(ns) + (UNDER + (key.id + "-" + title))
  }

  predicate Plain(s: string) {
    '/' !in s && '\\' !in s
  }

  predicate PlainPart(s: string) {
    Plain(s) && s != "" && s != "." && s != ".."
  }

  // An id without path or name separators.
  predicate PlainId(id: string) {
    Plain(id) && '-' !in id
  }

  // What the program's slug function guarantees of its results.
  ghost predicate SlugsPlain(slug: string -> string) {
    forall t: string :: Plain(slug(t))
  }

  // ---- the item a path belongs to ----------------------------------------------

  function UpTo(s: string, c: char): string {
    if s == [] || s[0] == c then [] else [s[0]] + UpTo(s[1..], c)
  }

  function AfterLast(s: string, c: char): string {
    if s == [] || s[|s| - 1] == c then [] else AfterLast(s[..|s| - 1], c) + [s[|s| - 1]]
  }

  function Owner(ns: string, path: string): Key {
    var rest := if |Root(ns)| <= |path| then path[|Root(ns)|..] else "";
    if UNDER <= rest then Key(Attachment, UpTo(rest[12..], '-'))
    else Key(Page, AfterLast(if |rest| < 3 then "" else rest[..|rest| - 3], '-'))
  }

  /** A path leads back to its item: so items with different ids, or a page and
      an attachment, never share a path, whatever their titles and file names. */
  lemma PathOwner(ns: string, slug: string -> string, key: Key, title: string, path: string)
    requires PlainPart(ns) && SlugsPlain(slug) && PlainId(key.id)
    requires SafeRel(RawPath(ns, slug, key, title)) == Some(path)
    ensures Owner(ns, path) == key
  {
    match key
    case Key(Page, id) =>
      assert Plain(slug(title));
      PageOwner(ns, slug(title), id);
    case Key(Attachment, id) =>
      AttachmentOwner(ns, id, title);
  }

  lemma DistinctItemsDistinctPaths(ns: string, slug: string -> string, k1: Key, title1: string, k2: Key, title2: string)
    requires PlainPart(ns) && SlugsPlain(slug) && PlainId(k1.id) && PlainId(k2.id) && k1 != k2
    requires SafeRel(RawPath(ns, slug, k1, title1)).Some? && SafeRel(RawPath(ns, slug, k2, title2)).Some?
    ensures SafeRel(RawPath(ns, slug, k1, title1)).value != SafeRel(RawPath(ns, slug, k2, title2)).value
  {
    PathOwner(ns, slug, k1, title1, SafeRel(RawPath(ns, slug, k1, title1)).value);
    PathOwner(ns, slug, k2, title2, SafeRel(RawPath(ns, slug, k2, title2)).value);
  }

  lemma {:induction false} UpToFirst(a: string, c: char, b: string)
    requires c !in a
    ensures UpTo(a + [c] + b, c) == a
  {
    if a == [] {
      assert (a + [c] + b)[0] == c;
    } else {
      assert (a + [c] + b)[1..] == a[1..] + [c] + b;
      UpToFirst(a[1..], c, b);
    }
  }

  lemma {:induction false} AfterLastOne(a: string, c: char, b: string)
    requires c !in b
    ensures AfterLast(a + [c] + b, c) == b
  {
    if b == [] {
      assert (a + [c] + b)[|a + [c] + b| - 1] == c;
    } else {
      assert (a + [c] + b)[..|a + [c] + b| - 1] == a + [c] + b[..|b| - 1];
      AfterLastOne(a, c, b[..|b| - 1]);
    }
  }

  lemma SlashesConcat(a: string, b: string)
    requires '\\' !in a
    ensures Slashes(a + b) == a + Slashes(b)
  {
  }

  lemma {:induction false} RStripKeeps(a: string, b: string)
    requires a != [] && !IsSpace(a[|a| - 1])
    ensures RStrip(a + b) == a + RStrip(b)
  {
    if b == [] {
      assert a + b == a;
    } else if IsSpace(b[|b| - 1]) {
      assert (a + b)[..|a + b| - 1] == a + b[..|b| - 1];
      RStripKeeps(a, b[..|b| - 1]);
    }
  }

  lemma StripKeeps(a: string, b: string)
    requires a != [] && !IsSpace(a[0]) && !IsSpace(a[|a| - 1])
    ensures Strip(a + b) == a + RStrip(b)
  {
    assert LStrip(a + b) == a + b;
    RStripKeeps(a, b);
  }

  function Under(a: string, checked: Option<string>): Option<string> {
    if checked.None? then None else Some(a + checked.value)
  }

  // A good first part goes through the check unchanged.
  lemma CheckPart(a: string, parts: seq<string>)
    requires PlainPart(a) && Clean(parts) != []
    ensures Clean([a] + parts) != []
    ensures CheckedParts([a] + parts) == Under(a + "/", CheckedParts(parts))
  {
    assert ([a] + parts)[1..] == parts;
    assert ([a] + Clean(parts))[1..] == Clean(parts);
  }

  lemma RootIs(ns: string, b: string)
    ensures Root(ns) == "confluence/" + (ns + "/") && (Root(ns) + b)[0] == 'c'
    ensures Root(ns) + b == "confluence" + ['/'] + (ns + ['/'] + b)
  {
  }

  lemma SplitUnderRoot(ns: string, b: string)
    requires PlainPart(ns)
    ensures Split(Root(ns) + b, '/') == ["confluence"] + ([ns] + Split(b, '/'))
  {
    RootIs(ns, b);
    SplitFirst("confluence", '/', ns + ['/'] + b);
    SplitFirst(ns, '/', b);
  }

  lemma UnderTwice(a: string, b: string, c: Option<string>)
    ensures Under(a, Under(b, c)) == Under(a + b, c)
  {
    if c.Some? {
      assert a + (b + c.value) == a + b + c.value;
    }
  }

  lemma CheckTwoParts(a: string, b: string, parts: seq<string>)
    requires PlainPart(a) && PlainPart(b) && Clean(parts) != []
    ensures CheckedParts([a] + ([b] + parts)) == Under(a + "/" + (b + "/"), CheckedParts(parts))
  {
    calc {
      CheckedParts([a] + ([b] + parts));
      { CheckPart(b, parts); CheckPart(a, [b] + parts); }
      Under(a + "/", Under(b + "/", CheckedParts(parts)));
      { UnderTwice(a + "/", b + "/", CheckedParts(parts)); }
      Under(a + "/" + (b + "/"), CheckedParts(parts));
    }
  }

  lemma CheckUnderRoot(ns: string, b: string)
    requires PlainPart(ns) && Clean(Split(b, '/')) != []
    ensures Checked(Root(ns) + b) == Under(Root(ns), CheckedParts(Split(b, '/')))
  {
    calc {
      Checked(Root(ns) + b);
      { RootIs(ns, b); }
      CheckedParts(Split(Root(ns) + b, '/'));
      { SplitUnderRoot(ns, b); }
      CheckedParts(["confluence"] + ([ns] + Split(b, '/')));
      { CheckTwoParts("confluence", ns, Split(b, '/')); RootIs(ns, b); assert "confluence" + "/" == "confluence/"; }
      Under(Root(ns), CheckedParts(Split(b, '/')));
    }
  }

  // Backslashes and outer whitespace matter only after a clean head.
  lemma StripUnderRoot(ns: string, head: string, tail: string)
    requires PlainPart(ns) && '\\' !in head && head != [] && !IsSpace(head[|head| - 1])
    ensures SafeRel(Root(ns) + (head + tail)) == Checked(Root(ns) + (head + RStrip(Slashes(tail))))
  {
    var a := Root(ns) + head;
    assert Root(ns) + (head + tail) == a + tail;
    assert '\\' !in a && a[0] == 'c' && a[|a| - 1] == head[|head| - 1];
    SlashesConcat(a, tail);
    StripKeeps(a, Slashes(tail));
    assert a + RStrip(Slashes(tail)) == Root(ns) + (head + RStrip(Slashes(tail)));
  }

  lemma PageOwner(ns: string, slug: string, id: string)
    requires PlainPart(ns) && Plain(slug) && PlainId(id)
    ensures var path := Root(ns) + (slug + "-" + id + ".md");
            SafeRel(path) == Some(path) && Owner(ns, path) == Key(Page, id)
  {
    var name := slug + "-" + id + ".md";
    assert name[|name| - 1] == 'd' && name[|slug|] == '-';
    assert name + "" == name;
    StripUnderRoot(ns, name, "");
    assert Slashes("") == "";
    PlainChecked(name);
    CheckUnderRoot(ns, name);
    PageName(ns, slug, id);
  }

  lemma PlainChecked(name: string)
    requires PlainPart(name)
    ensures Clean(Split(name, '/')) == [name] && CheckedParts(Split(name, '/')) == Some(name)
  {
    SplitWhole(name, '/');
    assert Clean([name]) == [name];
  }

  lemma PageName(ns: string, slug: string, id: string)
    requires Plain(slug) && PlainId(id)
    ensures Owner(ns, Root(ns) + (slug + "-" + id + ".md")) == Key(Page, id)
  {
    var name := slug + "-" + id + ".md";
    assert (Root(ns) + name)[|Root(ns)|..] == name;
    assert name[..|name| - 3] == slug + "-" + id;
    AfterLastOne(slug, '-', id);
    assert '/' !in name;
    assert UNDER[11] == '/';
  }

  lemma AttachmentOwner(ns: string, id: string, file: string)
    requires PlainPart(ns) && PlainId(id)
    requires SafeRel(Root(ns) + (UNDER + (id + "-" + file))).Some?
    ensures Owner(ns, SafeRel(Root(ns) + (UNDER + (id + "-" + file))).value) == Key(Attachment, id)
  {
    var name := id + "-" + RStrip(Slashes(file));
    AttachmentStrip(ns, id, file);
    NameChecked(id, RStrip(Slashes(file)));
    AttachmentCheck(ns, name);
    CheckedName(ns, id, CheckedParts(Split(name, '/')).value);
  }

  lemma CheckedName(ns: string, id: string, name: string)
    requires PlainId(id) && id + "-" <= name
    ensures Owner(ns, Root(ns) + UNDER + name) == Key(Attachment, id)
  {
    assert name == id + "-" + name[|id| + 1..];
    AttachmentName(ns, id, name[|id| + 1..]);
    assert Root(ns) + UNDER + name == Root(ns) + (UNDER + name);
  }

  lemma AttachmentStrip(ns: string, id: string, file: string)
    requires PlainPart(ns) && PlainId(id)
    ensures SafeRel(Root(ns) + (UNDER + (id + "-" + file))) ==
            Checked(Root(ns) + (UNDER + (id + "-" + RStrip(Slashes(file)))))
  {
    var head := UNDER + id + "-";
    assert UNDER + (id + "-" + file) == head + file;
    assert UNDER + (id + "-" + RStrip(Slashes(file))) == head + RStrip(Slashes(file));
    assert head[|head| - 1] == '-';
    StripUnderRoot(ns, head, file);
  }

  lemma AttachmentCheck(ns: string, name: string)
    requires PlainPart(ns) && Clean(Split(name, '/')) != []
    ensures Checked(Root(ns) + (UNDER + name)) == Under(Root(ns) + UNDER, CheckedParts(Split(name, '/')))
  {
    calc {
      Checked(Root(ns) + (UNDER + name));
      { UnderSplit(name); CheckUnderRoot(ns, UNDER + name); }
      Under(Root(ns), CheckedParts(Split(UNDER + name, '/')));
      { UnderSplit(name); }
      Under(Root(ns), Under(UNDER, CheckedParts(Split(name, '/'))));
      { UnderTwice(Root(ns), UNDER, CheckedParts(Split(name, '/'))); }
      Under(Root(ns) + UNDER, CheckedParts(Split(name, '/')));
    }
  }

  lemma UnderSplit(name: string)
    requires Clean(Split(name, '/')) != []
    ensures Clean(Split(UNDER + name, '/')) != []
    ensures CheckedParts(Split(UNDER + name, '/')) == Under(UNDER, CheckedParts(Split(name, '/')))
  {
    assert UNDER + name == "attachments" + ['/'] + name;
    SplitFirst("attachments", '/', name);
    CheckPart("attachments", Split(name, '/'));
    assert "attachments" + "/" == UNDER;
  }

  // What the check leaves of `id-tail` still starts with `id-`.
  lemma NameChecked(id: string, tail: string)
    requires PlainId(id)
    ensures var name := id + "-" + tail;
            && Clean(Split(name, '/')) != []
            && (CheckedParts(Split(name, '/')).Some? ==> id + "-" <= CheckedParts(Split(name, '/')).value)
  {
    var head, parts := id + "-", Split(tail, '/');
    SplitPrefix(head, tail, '/');
    assert (head + parts[0])[|id|] == '-';
    assert ([head + parts[0]] + parts[1..])[1..] == parts[1..];
  }

  lemma AttachmentName(ns: string, id: string, rest: string)
    requires PlainId(id)
    ensures Owner(ns, Root(ns) + (UNDER + (id + "-" + rest))) == Key(Attachment, id)
  {
    var name := id + "-" + rest;
    var under := UNDER + name;
    assert (Root(ns) + under)[|Root(ns)|..] == under;
    assert under[12..] == name;
    UpToFirst(id, '-', rest);
  }
}
