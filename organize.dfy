/** The folder and tag sections of src/feedManager.js as functions of the
    dataset: `addFolder` numbering, the `deleteFolder` and `deleteTag`
    cascades, the `getAllFolders` order and the case-insensitive `addTag`. */
module Organize {
  import opened Values
  import opened Types
  import opened Seqs
  import opened Strings

  // ---- folders ----

  /** The folder `addFolder(name, parentId)` appends: numbered by the count
      of folders before it. */
  function AddFolder(folders: seq<Folder>, id: string, name: string, parentId: Option<string>): (r: seq<Folder>)
    ensures |r| == |folders| + 1 && r[..|folders|] == folders
    ensures r[|folders|] == Folder(id, name, parentId, |folders|)
  {
    folders + [Folder(id, name, parentId, |folders|)]
  }

  /** Every folder's `sortOrder` is its position. */
  predicate Numbered(folders: seq<Folder>) {
    forall i :: 0 <= i < |folders| ==> folders[i].sortOrder == i
  }

  /** Adding folders keeps the numbering, and a new folder sorts after all
      the others. */
  lemma AddFolderKeepsNumbering(folders: seq<Folder>, id: string, name: string, parentId: Option<string>)
    requires Numbered(folders)
    ensures Numbered(AddFolder(folders, id, name, parentId))
    ensures forall i :: 0 <= i < |folders| ==> folders[i].sortOrder < AddFolder(folders, id, name, parentId)[|folders|].sortOrder
  {
  }

  /** `f => f.id !== id` on folders. */
  function FolderWithoutId(id: string): Folder -> bool {
    (f: Folder) => f.id != id
  }

  /** `deleteFolder(id)` on the dataset: nothing when no folder has the id;
      otherwise the other folders, and every feed kept with its folder
      cleared exactly where it was the deleted one. */
  function DeleteFolder(d: AppData, id: string): (r: Option<AppData>)
    ensures r.None? <==> forall i :: 0 <= i < |d.folders| ==> d.folders[i].id != id
    ensures r.Some? ==>
              && (forall f :: f in r.value.folders <==> f in d.folders && f.id != id)
              && |r.value.feeds| == |d.feeds|
              && (forall i :: 0 <= i < |d.feeds| ==>
                    r.value.feeds[i] == if d.feeds[i].folderId == Some(id) then d.feeds[i].(folderId := None) else d.feeds[i])
              && r.value.articles == d.articles && r.value.tags == d.tags
    ensures r.Some? ==>
              && r.value.folders == Filter(d.folders, FolderWithoutId(id))
              && r.value.(folders := d.folders, feeds := d.feeds) == d
  {
    var folders := Filter(d.folders, FolderWithoutId(id));
    FilterKeepsLength(d.folders, FolderWithoutId(id));
    if |folders| == |d.folders| then None
    else
      var feeds := seq(|d.feeds|, i requires 0 <= i < |d.feeds| =>
                     if d.feeds[i].folderId == Some(id) then d.feeds[i].(folderId := None) else d.feeds[i]);
      Some(d.(folders := folders, feeds := feeds))
  }

  /** After `deleteFolder` no feed is in the deleted folder, no feed is lost
      and every feed keeps its id and url. */
  lemma DeleteFolderKeepsFeeds(d: AppData, id: string)
    requires DeleteFolder(d, id).Some?
    ensures forall f :: f in DeleteFolder(d, id).value.feeds ==> f.folderId != Some(id)
    ensures forall i :: 0 <= i < |d.feeds| ==>
              && DeleteFolder(d, id).value.feeds[i].id == d.feeds[i].id
              && DeleteFolder(d, id).value.feeds[i].url == d.feeds[i].url
  {
  }

  /** Deleting the first folder and adding one numbers the new folder like
      the survivor: `addFolder` counts folders rather than taking the
      largest order, so after a deletion two folders can share an order. */
  lemma DeleteThenAddSharesOrder(a: Folder, b: Folder, id: string, name: string)
    requires a.id != b.id && a.sortOrder == 0 && b.sortOrder == 1
    requires var d := Defaults(map[]).(folders := [a, b]);
             DeleteFolder(d, a.id).Some?
    ensures var d := Defaults(map[]).(folders := [a, b]);
            var after := AddFolder(DeleteFolder(d, a.id).value.folders, id, name, None);
            after == [b, Folder(id, name, None, 1)] && after[0].sortOrder == after[1].sortOrder
  {
    var d := Defaults(map[]).(folders := [a, b]);
    assert [a, b][1..] == [b];
    assert DeleteFolder(d, a.id).value.folders == [b];
  }

  /** The comparator `(a, b) => a.sortOrder - b.sortOrder` as "`a` may come
      first". */
  function BySortOrder(): (Folder, Folder) -> bool {
    (a: Folder, b: Folder) => a.sortOrder <= b.sortOrder
  }

  /** `getAllFolders()`'s order. */
  function SortFolders(folders: seq<Folder>): seq<Folder> {
    SortBy(folders, BySortOrder())
  }

  /** The sorted folders are the stored ones, rearranged by `sortOrder`. */
  lemma SortFoldersSorted(folders: seq<Folder>)
    ensures SortedBy(SortFolders(folders), BySortOrder())
    ensures multiset(SortFolders(folders)) == multiset(folders)
  {
    SortBySorted(folders, BySortOrder());
  }

  // ---- tags ----

  /** `t => t.name.toLowerCase() === name.toLowerCase()`. */
  function NamedLike(name: string): Tag -> bool {
    (t: Tag) => SameIgnoringCase(t.name, name)
  }

  /** `addTag(name, color)` on the tag list: the first tag whose name
      matches ignoring case, unchanged list; otherwise a new tag appended. */
  function AddTag(tags: seq<Tag>, id: string, name: string, color: string): (r: (seq<Tag>, Tag))
    ensures r.1 in r.0 && SameIgnoringCase(r.1.name, name)
    ensures (exists t :: t in tags && SameIgnoringCase(t.name, name)) <==> r.0 == tags
    ensures r.0 == tags ==> exists i :: 0 <= i < |tags| && tags[i] == r.1
                              && forall j :: 0 <= j < i ==> !SameIgnoringCase(tags[j].name, name)
    ensures r.0 != tags ==> r.0 == tags + [r.1] && r.1 == Tag(id, name, color)
  {
    match Find(tags, NamedLike(name))
    case Some(t) => (tags, t)
    case None => (tags + [Tag(id, name, color)], Tag(id, name, color))
  }

  /** No two tags share a name ignoring case. */
  predicate DistinctNames(tags: seq<Tag>) {
    forall i, j :: 0 <= i < j < |tags| ==> !SameIgnoringCase(tags[i].name, tags[j].name)
  }

  /** `addTag` keeps the names distinct. */
  lemma AddTagKeepsDistinct(tags: seq<Tag>, id: string, name: string, color: string)
    requires DistinctNames(tags)
    ensures DistinctNames(AddTag(tags, id, name, color).0)
  {
    var r := AddTag(tags, id, name, color).0;
    if r != tags {
      forall i, j | 0 <= i < j < |r| ensures !SameIgnoringCase(r[i].name, r[j].name) {
        if j == |tags| {
          assert r[i] in tags;
        }
      }
    }
  }

  /** Adding the same name twice, in any case, adds one tag: the second
      call returns the first call's tag and changes nothing. */
  lemma AddTagIdempotent(tags: seq<Tag>, id1: string, id2: string, name: string, other: string, c1: string, c2: string)
    requires SameIgnoringCase(name, other)
    ensures var (once, t) := AddTag(tags, id1, name, c1);
            AddTag(once, id2, other, c2) == (once, Find(once, NamedLike(other)).value)
    ensures var (once, t) := AddTag(tags, id1, name, c1);
            AddTag(tags, id1, name, c1).0 != tags ==> AddTag(once, id2, other, c2).1 == t
  {
    var (once, t) := AddTag(tags, id1, name, c1);
    assert t in once && SameIgnoringCase(t.name, other);
    if once != tags {
      var k := |tags|;
      assert once[k] == t;
      assert forall j :: 0 <= j < k ==> !NamedLike(other)(once[j]) by {
        forall j | 0 <= j < k ensures !NamedLike(other)(once[j]) {
          assert once[j] in tags;
        }
      }
      FirstIndex(once, NamedLike(other), k);
    }
  }

  /** `t => t.id === id` on tags. */
  function TagWithId(id: string): Tag -> bool {
    (t: Tag) => t.id == id
  }

  /** `t => t.id !== id` on tags. */
  function TagWithoutId(id: string): Tag -> bool {
    (t: Tag) => t.id != id
  }

  function NotNamed(name: string): string -> bool {
    (x: string) => x != name
  }

  /** `tags.filter(t => t !== name)`: the other names in their order, each
      as often as before. */
  function Untagged(tags: seq<string>, name: string): (r: seq<string>)
    ensures forall x :: x in r <==> x in tags && x != name
    ensures r == Filter(tags, NotNamed(name))
    ensures forall x :: multiset(r)[x] == if x != name then multiset(tags)[x] else 0
  {
    FilterCounts(tags, NotNamed(name));
    Filter(tags, NotNamed(name))
  }

  /** `deleteTag(id)` on the dataset: nothing when no tag has the id;
      otherwise the tags with other ids, and the name of the first tag with
      the id taken off every feed and article, which all stay in place. */
  function DeleteTag(d: AppData, id: string): (r: Option<AppData>)
    ensures r.None? <==> forall i :: 0 <= i < |d.tags| ==> d.tags[i].id != id
    ensures r.Some? ==>
              var name := Find(d.tags, TagWithId(id)).value.name;
              && (forall t :: t in r.value.tags <==> t in d.tags && t.id != id)
              && |r.value.feeds| == |d.feeds| && |r.value.articles| == |d.articles|
              && (forall i :: 0 <= i < |d.feeds| ==> r.value.feeds[i] == d.feeds[i].(tags := Untagged(d.feeds[i].tags, name)))
              && (forall i :: 0 <= i < |d.articles| ==>
                    r.value.articles[i] == d.articles[i].(tags := Untagged(d.articles[i].tags, name)))
              && r.value.folders == d.folders
    ensures r.Some? ==>
              && r.value.tags == Filter(d.tags, TagWithoutId(id))
              && r.value.(tags := d.tags, feeds := d.feeds, articles := d.articles) == d
  {
    match Find(d.tags, TagWithId(id))
    case None => None
    case Some(t) =>
      Some(d.(tags := Filter(d.tags, TagWithoutId(id)),
              feeds := seq(|d.feeds|, i requires 0 <= i < |d.feeds| => d.feeds[i].(tags := Untagged(d.feeds[i].tags, t.name))),
              articles := seq(|d.articles|, i requires 0 <= i < |d.articles| =>
                            d.articles[i].(tags := Untagged(d.articles[i].tags, t.name)))))
  }

  /** After `deleteTag` no feed and no article carries the deleted name,
      and every other tag name stays where it was. */
  lemma DeleteTagCascade(d: AppData, id: string)
    requires DeleteTag(d, id).Some?
    ensures var name := Find(d.tags, TagWithId(id)).value.name;
            var r := DeleteTag(d, id).value;
            && (forall f :: f in r.feeds ==> name !in f.tags)
            && (forall a :: a in r.articles ==> name !in a.tags)
            && (forall i, x :: 0 <= i < |d.feeds| && x != name ==> (x in r.feeds[i].tags <==> x in d.feeds[i].tags))
  {
  }
}
