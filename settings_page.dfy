/**
 * The tag list of `frontend/src/pages/Settings.jsx`: `handleAddTag` derives
 * a tag id from the typed name and appends the tag, `handleDeleteTag` drops
 * the tags with an id. Both build a new list, which is then saved.
 */
module SettingsPage {
  import opened Wrappers
  import opened Strings
  import opened Seqs
  import opened Entities

  /** `.replace(/\s+/g, '-')`: every maximal run of white space becomes one '-'. */
  function CollapseSpaces(s: string): (r: string)
    ensures |r| <= |s|
    ensures forall i :: 0 <= i < |r| ==> !IsSpace(r[i])
    decreases |s|
  {
    if s == [] then []
    else if IsSpace(s[0]) then ['-'] + CollapseSpaces(TrimStart(s[1..]))
    else [s[0]] + CollapseSpaces(s[1..])
  }

  /** The id of a new tag: `newTagName.toLowerCase().replace(/\s+/g, '-')`. */
  function Slug(name: string): (r: string)
    ensures forall i :: 0 <= i < |r| ==> !IsSpace(r[i])
  {
    CollapseSpaces(Lower(name))
  }

  /** A string without white space is left as it is. */
  lemma {:induction false} CollapseNoSpaces(s: string)
    requires forall i :: 0 <= i < |s| ==> !IsSpace(s[i])
    ensures CollapseSpaces(s) == s
  {
    if s != [] {
      CollapseNoSpaces(s[1..]);
    }
  }

  /** A string of lower-case characters collapses to one. */
  lemma {:induction false} CollapseKeepsLower(s: string)
    requires forall i :: 0 <= i < |s| ==> LowerChar(s[i]) == s[i]
    ensures forall i :: 0 <= i < |CollapseSpaces(s)| ==> LowerChar(CollapseSpaces(s)[i]) == CollapseSpaces(s)[i]
    decreases |s|
  {
    if s != [] {
      if IsSpace(s[0]) {
        var t := TrimStart(s[1..]);
        assert forall i :: 0 <= i < |t| ==> t[i] == s[1..][|s[1..]| - |t| + i];
        CollapseKeepsLower(t);
      } else {
        CollapseKeepsLower(s[1..]);
      }
    }
  }

  /** Slugging a slug changes nothing. */
  lemma SlugIdempotent(name: string)
    ensures Slug(Slug(name)) == Slug(name)
  {
    var s := Slug(name);
    CollapseKeepsLower(Lower(name));
    assert Lower(s) == s;
    CollapseNoSpaces(s);
  }

  /** A name without white space just loses its capitals. */
  lemma SlugOfWord(name: string)
    requires forall i :: 0 <= i < |name| ==> !IsSpace(name[i])
    ensures Slug(name) == Lower(name)
  {
    forall i | 0 <= i < |name| ensures !IsSpace(Lower(name)[i]) {
      LowerKeepsSpaces(name[i]);
    }
    CollapseNoSpaces(Lower(name));
  }

  /** Leading white space followed by a non-space is trimmed away entirely. */
  lemma {:induction false} TrimBlankPrefix(ws: string, b: string)
    requires IsBlank(ws)
    requires b == [] || !IsSpace(b[0])
    ensures TrimStart(ws + b) == b
  {
    if ws == [] {
      assert ws + b == b;
    } else {
      assert (ws + b)[1..] == ws[1..] + b;
      TrimBlankPrefix(ws[1..], b);
    }
  }

  /** A word, a run of white space and the rest: the run becomes a single '-'. */
  lemma {:induction false} CollapseRun(w: string, ws: string, b: string)
    requires forall i :: 0 <= i < |w| ==> !IsSpace(w[i])
    requires ws != [] && IsBlank(ws)
    requires b == [] || !IsSpace(b[0])
    ensures CollapseSpaces(w + ws + b) == w + ['-'] + CollapseSpaces(b)
  {
    if w == [] {
      assert w + ws + b == ws + b;
      assert (ws + b)[1..] == ws[1..] + b;
      TrimBlankPrefix(ws[1..], b);
    } else {
      var s := w + ws + b;
      assert s[0] == w[0] && s[1..] == w[1..] + ws + b;
      CollapseRun(w[1..], ws, b);
    }
  }

  /**
   * `handleAddTag`: a name that trims to nothing adds nothing; otherwise the
   * tag `{id: slug, name, color}` is appended at the end, the name kept as
   * typed and no check made for an id already in the list.
   */
  function AddTag(tags: seq<Tag>, name: string, color: string): (r: Option<seq<Tag>>)
    ensures r.None? <==> Trim(name) == ""
    ensures r.Some? ==> |r.value| == |tags| + 1 && r.value[..|tags|] == tags
    ensures r.Some? ==> r.value[|tags|] == Tag(Slug(name), name, color)
  {
    TrimEmptyIffBlank(name);
    if IsBlank(name) then None
    else
      var updated := tags + [Tag(Slug(name), name, color)];
      assert updated[..|tags|] == tags;
      Some(updated)
  }

  /** Adding a tag whose slug is already an id leaves two tags with that id. */
  lemma AddTagAllowsDuplicate(tags: seq<Tag>, name: string, color: string, k: nat)
    requires Trim(name) != ""
    requires k < |tags| && tags[k].id == Slug(name)
    ensures exists i, j ::
              0 <= i < j < |AddTag(tags, name, color).value| &&
              AddTag(tags, name, color).value[i].id == AddTag(tags, name, color).value[j].id
  {
    var r := AddTag(tags, name, color).value;
    assert r[k] == tags[k];
    assert r[k].id == r[|tags|].id;
  }

  /** The test `tag.id !== tagId`. */
  function KeepsTag(tagId: string): Tag -> bool {
    (t: Tag) => t.id != tagId
  }

  /**
   * `handleDeleteTag`: every tag with that id is removed and the others
   * stay in their order; an id no tag has leaves the list as it was.
   */
  function DeleteTag(tags: seq<Tag>, tagId: string): (r: seq<Tag>)
    ensures IsSubseq(r, tags)
    ensures forall t :: t in r <==> t in tags && t.id != tagId
    ensures forall t :: multiset(r)[t] == if t.id == tagId then 0 else multiset(tags)[t]
    ensures (forall i :: 0 <= i < |tags| ==> tags[i].id != tagId) ==> r == tags
  {
    var r := Filter(tags, KeepsTag(tagId));
    FilterIsSubseq(tags, KeepsTag(tagId));
    forall t ensures multiset(r)[t] == if t.id == tagId then 0 else multiset(tags)[t] {
      FilterMultiset(tags, KeepsTag(tagId), t);
    }
    if forall i :: 0 <= i < |tags| ==> tags[i].id != tagId then
      FilterAll(tags, KeepsTag(tagId));
      r
    else r
  }
}
