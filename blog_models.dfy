/**
 * The `Post` model: its stored row, the defaults a new post receives, and
 * `Post.save`, which fills in an empty slug from the title, stamps the
 * timestamps and writes the row under the table's unique slug constraint.
 */
module BlogModels {
  import opened Wrappers

  /** One row of the post table (everything but the primary key). */
  datatype PostRow = PostRow(
    author: int,
    title: string,
    slug: string,
    content: string,
    createdAt: int,
    updatedAt: int,
    isPublished: bool)

  type Rows = map<int, PostRow>

  /** A `Post` instance in memory: the row's fields and its primary key, None until first saved. */
  datatype PostState = PostState(id: Option<int>, row: PostRow)

  /** `Post(author=…, title=…, content=…)`: `is_published` falls back to its default, True. */
  function NewPost(author: int, title: string, content: string, isPublished: Option<bool>): (p: PostState)
    ensures p.id.None? && p.row.slug == []
    ensures p.row.author == author && p.row.title == title && p.row.content == content
    ensures p.row.isPublished == (isPublished.None? || isPublished.value)
  {
    PostState(None, PostRow(author, title, [], content, 0, 0, isPublished.GetOr(true)))
  }

  /** The slug `save` stores: the one already set, or `slugify(title)` when it is empty. */
  function SlugOnSave(slug: string, title: string, slugify: string -> string): string {
    if slug == [] then slugify(title) else slug
  }

  /**
   * Whether `save` ends in an INSERT: the instance has no key, or the UPDATE
   * under its key matches no row and Django falls back to inserting.
   */
  predicate Inserts(rows: Rows, id: Option<int>) {
    id.None? || id.value !in rows
  }

  /**
   * The row's fields after `save` has run the fields' `pre_save`: the slug
   * rule, `auto_now` on `updated_at`, and `auto_now_add` on `created_at`
   * for an instance that is being inserted.
   */
  function Prepared(rows: Rows, p: PostState, now: int, slugify: string -> string): PostState {
    var r := p.row;
    var created := if Inserts(rows, p.id) then now else r.createdAt;
    PostState(p.id, r.(slug := SlugOnSave(r.slug, r.title, slugify), createdAt := created, updatedAt := now))
  }

  /** Some other row already holds `slug`: writing it would violate the unique constraint. */
  predicate SlugClash(rows: Rows, slug: string, id: Option<int>) {
    exists k | k in rows && id != Some(k) :: rows[k].slug == slug
  }

  /**
   * The table's integrity: keys lie below the next key the table issues and
   * no two rows share a slug (the empty slug included).
   */
  predicate ValidRows(rows: Rows, nextId: int) {
    && 0 < nextId
    && (forall k | k in rows :: k < nextId)
    && (forall j, k | j in rows && k in rows && rows[j].slug == rows[k].slug :: j == k)
  }

  /** What one `save` leaves behind: whether the write went through, the instance, and the table. */
  datatype Saved = Saved(ok: bool, post: PostState, rows: Rows, nextId: int)

  /**
   * The table's write of a prepared instance: without a key it is inserted
   * under the next key; with one it updates that row, or is inserted under it
   * when the row is gone. A clashing slug raises IntegrityError: the table is
   * left alone, while the instance keeps the key it had.
   */
  function Written(rows: Rows, nextId: int, q: PostState): Saved {
    if SlugClash(rows, q.row.slug, q.id) then Saved(false, q, rows, nextId)
    else
      match q.id
      case None => Saved(true, PostState(Some(nextId), q.row), rows[nextId := q.row], nextId + 1)
      case Some(k) => Saved(true, q, rows[k := q.row], if k < nextId then nextId else k + 1)
  }

  /** `Post.save` on the table: the fields' `pre_save`, then the write. */
  function SaveOutcome(rows: Rows, nextId: int, p: PostState, now: int, slugify: string -> string): Saved {
    Written(rows, nextId, Prepared(rows, p, now, slugify))
  }

  /** A write that goes through keeps keys below the next one and slugs unique. */
  lemma {:induction false} WrittenKeepsValid(rows: Rows, nextId: int, q: PostState)
    requires ValidRows(rows, nextId)
    ensures var s := Written(rows, nextId, q); ValidRows(s.rows, s.nextId)
  {
    var s := Written(rows, nextId, q);
    if s.ok {
      var k := s.post.id.value;
      forall j | j in rows && j != k ensures rows[j].slug != s.post.row.slug {
        assert q.id != Some(j);
      }
      forall i, j | i in s.rows && j in s.rows && s.rows[i].slug == s.rows[j].slug ensures i == j {
      }
    }
  }

  /** Slug once: a non-empty slug survives every later save, whatever the title becomes. */
  lemma {:induction false} SlugIsKept(slug: string, title: string, title': string, slugify: string -> string)
    requires SlugOnSave(slug, title, slugify) != []
    ensures SlugOnSave(SlugOnSave(slug, title, slugify), title', slugify) == SlugOnSave(slug, title, slugify)
    ensures slug != [] ==> SlugOnSave(slug, title, slugify) == slug
  {
  }

  /** A title that slugifies to nothing leaves the slug empty, so the next save derives it again. */
  lemma {:induction false} EmptySlugRecomputed(title: string, title': string, slugify: string -> string)
    requires slugify(title) == []
    ensures SlugOnSave([], title, slugify) == []
    ensures SlugOnSave(SlugOnSave([], title, slugify), title', slugify) == slugify(title')
  {
  }

  /**
   * Saving touches the slug and the timestamps only: author, title, content
   * and the published flag are written as they are. `created_at` becomes
   * `now` exactly when the save inserts, the fallback insert under a key whose
   * row is gone included; an update keeps it.
   */
  lemma {:induction false} SaveKeepsFields(rows: Rows, nextId: int, p: PostState, now: int, slugify: string -> string)
    ensures var s := SaveOutcome(rows, nextId, p, now, slugify); var r := s.post.row;
      && r.author == p.row.author && r.title == p.row.title && r.content == p.row.content
      && r.isPublished == p.row.isPublished
      && r.slug == (if p.row.slug == [] then slugify(p.row.title) else p.row.slug)
      && r.updatedAt == now
      && r.createdAt == (if p.id.None? || p.id.value !in rows then now else p.row.createdAt)
  {
  }

  /**
   * A save fails exactly when its slug is held by another row, and then
   * changes nothing in the table; otherwise it writes exactly the saved row
   * under the instance's key and leaves every other row alone.
   */
  lemma {:induction false} SaveWritesOneRow(rows: Rows, nextId: int, p: PostState, now: int, slugify: string -> string)
    ensures var s := SaveOutcome(rows, nextId, p, now, slugify);
      && (!s.ok <==> SlugClash(rows, SlugOnSave(p.row.slug, p.row.title, slugify), p.id))
      && (!s.ok ==> s.rows == rows && s.nextId == nextId && s.post.id == p.id)
      && (s.ok ==> s.post.id.Some? && (p.id.Some? ==> s.post.id == p.id)
                   && (p.id.None? ==> s.post.id == Some(nextId))
                   && s.rows == rows[s.post.id.value := s.post.row])
  {
  }

  /** Every save keeps keys below the next one and slugs unique. */
  lemma {:induction false} SaveKeepsValid(rows: Rows, nextId: int, p: PostState, now: int, slugify: string -> string)
    requires ValidRows(rows, nextId)
    ensures var s := SaveOutcome(rows, nextId, p, now, slugify); ValidRows(s.rows, s.nextId)
  {
    WrittenKeepsValid(rows, nextId, Prepared(rows, p, now, slugify));
  }

  /**
   * Two posts whose titles slugify alike cannot both be stored: the second
   * insert fails rather than receiving a different slug.
   */
  lemma {:induction false} DuplicateSlugRejected(rows: Rows, nextId: int, k: int, p: PostState, now: int, slugify: string -> string)
    requires p.id.None? && p.row.slug == [] && k in rows && rows[k].slug == slugify(p.row.title)
    ensures SaveOutcome(rows, nextId, p, now, slugify) == Saved(false, Prepared(rows, p, now, slugify), rows, nextId)
  {
    assert Prepared(rows, p, now, slugify).row.slug == rows[k].slug;
  }

  /** The post table: the rows by primary key and the key the next insert receives. */
  class PostTable {
    var rows: Rows
    var nextId: int

    ghost predicate Valid()
      reads this
    {
      ValidRows(rows, nextId)
    }

    constructor ()
      ensures Valid() && rows == map[] && nextId == 1
    {
      rows := map[];
      nextId := 1;
    }

    /**
     * The INSERT or UPDATE of `row` under the unique slug constraint: the key
     * the row is stored under, or None when the database refuses the write.
     */
    method Write(id: Option<int>, row: PostRow) returns (key: Option<int>)
      modifies this
      ensures var w := Written(old(rows), old(nextId), PostState(id, row));
        key.Some? == w.ok && (key.Some? ==> key == w.post.id) && rows == w.rows && nextId == w.nextId
      ensures old(Valid()) ==> Valid()
    {
      if Valid() {
        WrittenKeepsValid(rows, nextId, PostState(id, row));
      }
      if SlugClash(rows, row.slug, id) {
        return None;
      }
      match id
      case None =>
        key := Some(nextId);
        rows := rows[nextId := row];
        nextId := nextId + 1;
      case Some(k) =>
        key := id;
        rows := rows[k := row];
        if k >= nextId {
          nextId := k + 1;
        }
    }

    /** `Post.delete()`: the row is gone and no other row changes. */
    method Delete(id: int)
      modifies this
      ensures rows == old(rows) - {id} && nextId == old(nextId)
      ensures old(Valid()) ==> Valid()
    {
      rows := rows - {id};
    }
  }

  /** A `Post` instance whose fields the views assign before calling `save`. */
  class Post {
    var id: Option<int>
    var author: int
    var title: string
    var slug: string
    var content: string
    var createdAt: int
    var updatedAt: int
    var isPublished: bool

    function State(): PostState
      reads this
    {
      PostState(id, PostRow(author, title, slug, content, createdAt, updatedAt, isPublished))
    }

    /** An unsaved instance holding `p`. */
    constructor (p: PostState)
      ensures State() == p
    {
      id := p.id;
      author := p.row.author;
      title := p.row.title;
      slug := p.row.slug;
      content := p.row.content;
      createdAt := p.row.createdAt;
      updatedAt := p.row.updatedAt;
      isPublished := p.row.isPublished;
    }

    /**
     * `Post.save()`: fill an empty slug, stamp the timestamps (`created_at`
     * only when the write is an insert), then write the row.
     */
    method Save(table: PostTable, now: int, slugify: string -> string) returns (ok: bool)
      modifies this, table
      ensures var s := SaveOutcome(old(table.rows), old(table.nextId), old(State()), now, slugify);
        ok == s.ok && State() == s.post && table.rows == s.rows && table.nextId == s.nextId
      ensures old(table.Valid()) ==> table.Valid()
    {
      ghost var p0 := State();
      if slug == [] {
        slug := slugify(title);
      }
      if id.None? || id.value !in table.rows {
        createdAt := now;
      }
      updatedAt := now;
      assert State() == Prepared(table.rows, p0, now, slugify);
      var key := table.Write(id, PostRow(author, title, slug, content, createdAt, updatedAt, isPublished));
      ok := key.Some?;
      if ok {
        id := key;
      }
    }
  }
}
