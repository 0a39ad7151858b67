/** Documents with YAML frontmatter: composing, parsing, and the indexer's stripper. */
module Vault {
  import opened Prelude
  import opened Text
  import opened UniqueSlug

  const FENCE := "\n---"

  // ---- parsing ---------------------------------------------------------------------------

  predicate FenceAt(s: string, i: nat) {
    i + 4 <= |s| && s[i..i + 4] == FENCE
  }

  // `text.find("\n---", start)`.
  function FindFence(s: string, start: nat): (r: Option<nat>)
    ensures r.Some? ==> start <= r.value && FenceAt(s, r.value)
    ensures r.Some? ==> forall i: nat :: start <= i < r.value ==> !FenceAt(s, i)
    ensures r.None? ==> forall i: nat :: start <= i ==> !FenceAt(s, i)
    decreases |s| - start
  {
    if start + 4 > |s| then None
    else if FenceAt(s, start) then Some(start)
    else FindFence(s, start + 1)
  }

  // `lstrip("\n")`.
  function DropNewlines(s: string): string {
    if s != [] && s[0] == '\n' then DropNewlines(s[1..]) else s
  }

  predicate Opens(text: string) {
    |text| >= 3 && text[..3] == "---"
  }

  // The YAML between the fences and the body after them; None where there is none.
  datatype Parsed = Parsed(yaml: Option<string>, body: string)

  function SplitDocument(text: string): Parsed {
    if !Opens(text) then Parsed(None, text)
    else match FindFence(text, 3)
      case None => Parsed(None, text)
      case Some(end) => Parsed(Some(Strip(text[3..end])), DropNewlines(text[end + 4..]))
  }

  /** `parse_frontmatter`: `load` is None where the YAML cannot be read as a mapping. */
  function ParseDocument<M>(load: string -> Option<M>, nothing: M, text: string): (M, string) {
    var p := SplitDocument(text);
    (match p.yaml
     case None => nothing
     case Some(y) => if load(y).Some? then load(y).value else nothing,
     p.body)
  }

  /** `_strip_frontmatter` of the indexer. */
  function StripFrontmatter(text: string): string {
    if !(|text| >= 3 && text[0] == '-' && text[1] == '-' && text[2] == '-') then text
    else
      var end := FindFence(text, 3);
      if end.None? then text else DropNewlines(text[end.value + 4..])
  }

  /** The indexer sees the body the editor sees, on every text. */
  lemma StripperAgrees<M>(load: string -> Option<M>, nothing: M, text: string)
    ensures StripFrontmatter(text) == ParseDocument(load, nothing, text).1
  {
    if |text| >= 3 {
      assert text[..3] == [text[0], text[1], text[2]];
    }
  }

  // ---- composing ---------------------------------------------------------------------------

  /** `serialize_doc`, given the YAML dump. */
  function Serialize(dump: string, body: string): string {
    "---\n" + dump + "---" + ("\n\n" + (RStrip(body) + "\n"))
  }

  // A dump ends its last line, and none of its lines starts with three dashes.
  ghost predicate DumpOk(dump: string) {
    && dump != "" && dump[|dump| - 1] == '\n'
    && forall i: nat :: !FenceAt("\n" + dump, i)
  }

  // What a body becomes by being saved.
  function Normal(body: string): string {
    DropNewlines(RStrip(body) + "\n")
  }

  // The first fence after the opening one is the closing one.
  lemma FenceFound(dump: string, tail: string)
    requires DumpOk(dump)
    ensures FindFence("---\n" + dump + "---" + tail, 3) == Some(3 + |dump|)
  {
    var text := "---\n" + dump + "---" + tail;
    var block := "\n" + dump;
    var end := 3 + |dump|;
    assert text[3..4 + |dump|] == block;
    assert text[end] == '\n' && text[end + 1..end + 4] == "---";
    assert FenceAt(text, end) by { assert text[end..end + 4] == [text[end]] + text[end + 1..end + 4]; }
    forall i: nat | 3 <= i < end ensures !FenceAt(text, i) {
      if FenceAt(text, i) {
        EarlyFence(text, block, i, end);
      }
    }
  }

  // A fence before the closing one would lie inside the dump: it cannot run across
  // the newline that ends it.
  lemma EarlyFence(text: string, block: string, i: nat, end: nat)
    requires 3 <= i < end && end + 4 <= |text| && text[3..end + 1] == block && text[end] == '\n' && FenceAt(text, i)
    ensures FenceAt(block, i - 3)
  {
    var f := text[i..i + 4];
    assert f[1] == '-' && f[2] == '-' && f[3] == '-';
    assert text[i + 1] == f[1] && text[i + 2] == f[2] && text[i + 3] == f[3];
    assert i + 3 < end;
    assert block[i - 3..i + 1] == text[i..i + 4];
  }

  /** Loading what was saved gives the YAML back, and the body in normal form, even
      where the body has fences of its own. */
  lemma RoundTrip(dump: string, body: string)
    requires DumpOk(dump)
    ensures SplitDocument(Serialize(dump, body)) == Parsed(Some(Strip("\n" + dump[..|dump| - 1])), Normal(body))
  {
    var tail := "\n\n" + (RStrip(body) + "\n");
    var text := "---\n" + dump + "---" + tail;
    FenceFound(dump, tail);
    var end := 3 + |dump|;
    assert text[..3] == "---";
    assert text[3..end] == "\n" + dump[..|dump| - 1];
    assert text[end + 4..] == tail;
    DropTwo(RStrip(body) + "\n");
  }

  lemma DropTwo(s: string)
    ensures DropNewlines("\n\n" + s) == DropNewlines(s)
  {
    assert ("\n\n" + s)[1..] == "\n" + s;
    assert ("\n" + s)[1..] == s;
  }

  /** With a YAML codec that reads its own dumps, both parts come back. */
  lemma DocumentRoundTrip<M>(load: string -> Option<M>, dump: M -> string, nothing: M, meta: M, body: string)
    requires DumpOk(dump(meta)) && load(Strip("\n" + dump(meta)[..|dump(meta)| - 1])) == Some(meta)
    ensures ParseDocument(load, nothing, Serialize(dump(meta), body)) == (meta, Normal(body))
  {
    RoundTrip(dump(meta), body);
  }

  // ---- the normal form ----------------------------------------------------------------------

  predicate Ends(s: string) {
    s != "" && !IsSpace(s[|s| - 1])
  }

  // A non-empty text ending in a visible character keeps that end.
  lemma {:induction false} DropKeepsEnd(s: string)
    requires Ends(s)
    ensures Ends(DropNewlines(s)) && DropNewlines(s)[0] != '\n'
    ensures DropNewlines(s + "\n") == DropNewlines(s) + "\n"
  {
    if s[0] == '\n' {
      assert (s + "\n")[1..] == s[1..] + "\n";
      assert s[1..] != "" && s[1..][|s| - 2] == s[|s| - 1];
      DropKeepsEnd(s[1..]);
    }
  }

  // A body is normal when it is empty, or starts with no newline and ends in one
  // newline after a visible character.
  predicate IsNormal(b: string) {
    b == "" || (b[0] != '\n' && b[|b| - 1] == '\n' && Ends(b[..|b| - 1]))
  }

  lemma NormalIsNormal(body: string)
    ensures IsNormal(Normal(body))
  {
    RStripSplits(body);
    var x := RStrip(body);
    if x == "" {
      assert x + "\n" == "\n" && "\n"[1..] == "";
    } else {
      DropKeepsEnd(x);
      var y := DropNewlines(x);
      assert (y + "\n")[..|y|] == y;
    }
  }

  /** Saving leaves a body alone exactly when it is in normal form. */
  lemma NormalFixes(b: string)
    ensures Normal(b) == b <==> IsNormal(b)
  {
    NormalIsNormal(b);
    if b == "" {
      assert RStrip(b) + "\n" == "\n" && "\n"[1..] == "";
    } else if IsNormal(b) {
      var y := b[..|b| - 1];
      assert b == y + "\n" && y[0] == b[0];
      assert AllSpace("\n");
      RStripPad(y, "\n");
    }
  }

  /** Saving and loading again changes nothing more. */
  lemma NormalTwice(body: string)
    ensures Normal(Normal(body)) == Normal(body)
  {
    NormalIsNormal(body);
    NormalFixes(Normal(body));
  }

  // ---- names -----------------------------------------------------------------------------------

  /** `find_unique_slug`: the first name whose document is not in the folder. */
  method FindUniqueSlug(children: seq<string>, base: string) returns (slug: string)
    ensures slug + ".md" !in children
    ensures slug != base ==> base + ".md" in children
    ensures slug != base ==> exists n: nat ::
            slug == Numbered(base, n) && IsLeast(base, ".md", (set c | c in children), n)
  {
    var existing := set c | c in children;
    slug := FindFree(base, ".md", existing);
  }
}
