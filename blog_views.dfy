/**
 * `PostViewSet`: the queryset of published posts every action goes through,
 * the listing in the model's default order, and the create, retrieve,
 * update and destroy actions as effects on the post table, with methods
 * that carry each one out on a `PostTable`.
 */
module BlogViews {
  import opened Wrappers
  import opened PyText
  import opened Drf
  import opened BlogModels
  import opened BlogSerializers

  /**
   * A response body: one post, a list of keys, the serializer's errors, an
   * error detail from the framework, no content, or an unhandled exception.
   */
  datatype Body = PostBody(id: int, row: PostRow) | Listed(ids: seq<int>) | FieldErrors(errors: Errors)
    | Detail | NoBody | ServerError

  datatype Reply = Reply(status: int, body: Body)

  /** One request's effect: the reply and the post table afterwards. */
  datatype Effect = Effect(reply: Reply, rows: Rows, nextId: int)

  /**
   * The object-level permission class the viewset adds for writes, whose
   * rule is not part of this model: may `caller` change the post stored
   * under `id`?
   */
  type MayChange = (int, int, PostRow) -> bool

  /** `Post.objects.filter(is_published=True)`: the posts every action can reach. */
  function Served(rows: Rows): (s: Rows)
    ensures forall k :: k in s <==> k in rows && rows[k].isPublished
    ensures forall k | k in s :: s[k] == rows[k]
  {
    map k | k in rows && rows[k].isPublished :: rows[k]
  }

  /** Among `keys`, one whose row is newest. */
  lemma {:induction false} NewestKeyExists(rows: Rows, keys: set<int>)
    requires keys != {} && keys <= rows.Keys
    ensures exists k | k in keys :: forall j | j in keys :: rows[j].createdAt <= rows[k].createdAt
    decreases keys
  {
    assert (forall x :: x !in keys) ==> keys == {};
    var k :| k in keys;
    var rest := keys - {k};
    assert forall j | j in keys && j != k :: j in rest;
    if rest == {} {
      assert forall j | j in keys :: j == k;
    } else {
      NewestKeyExists(rows, rest);
      var m :| m in rest && forall j | j in rest :: rows[j].createdAt <= rows[m].createdAt;
      var newest := if rows[m].createdAt <= rows[k].createdAt then k else m;
      assert newest in keys && forall j | j in keys :: rows[j].createdAt <= rows[newest].createdAt;
    }
  }

  /**
   * `keys`, each exactly once, newest first (the database breaks ties in an
   * order of its own; this picks one).
   */
  ghost function Listing(rows: Rows, keys: set<int>): (ids: seq<int>)
    requires keys <= rows.Keys
    ensures forall i | 0 <= i < |ids| :: ids[i] in keys
    ensures forall k | k in keys :: k in ids
    ensures forall i, j | 0 <= i < j < |ids| :: ids[i] != ids[j]
    ensures forall i, j | 0 <= i < j < |ids| :: rows[ids[i]].createdAt >= rows[ids[j]].createdAt
    decreases keys
  {
    if keys == {} then []
    else
      NewestKeyExists(rows, keys);
      var k :| k in keys && forall j | j in keys :: rows[j].createdAt <= rows[k].createdAt;
      var tail := Listing(rows, keys - {k});
      ListingCons(rows, keys, k, tail);
      [k] + tail
  }

  /** Putting the newest key in front of a listing of the others lists them all. */
  lemma {:induction false} ListingCons(rows: Rows, keys: set<int>, k: int, tail: seq<int>)
    requires keys <= rows.Keys && k in keys
    requires forall j | j in keys :: rows[j].createdAt <= rows[k].createdAt
    requires forall i | 0 <= i < |tail| :: tail[i] in keys - {k}
    requires forall j | j in keys - {k} :: j in tail
    requires forall i, j | 0 <= i < j < |tail| :: tail[i] != tail[j]
    requires forall i, j | 0 <= i < j < |tail| :: rows[tail[i]].createdAt >= rows[tail[j]].createdAt
    ensures var ids := [k] + tail;
      && (forall i | 0 <= i < |ids| :: ids[i] in keys)
      && (forall j | j in keys :: j in ids)
      && (forall i, j | 0 <= i < j < |ids| :: ids[i] != ids[j])
      && (forall i, j | 0 <= i < j < |ids| :: rows[ids[i]].createdAt >= rows[ids[j]].createdAt)
  {
    var ids := [k] + tail;
    assert forall i | 0 < i < |ids| :: ids[i] == tail[i - 1];
    assert forall j | j in keys && j != k :: j in keys - {k};
  }

  /** `list`: the served posts, newest first. */
  ghost function ListEffect(rows: Rows, nextId: int): Effect {
    Effect(Reply(HttpOk, Listed(Listing(rows, Served(rows).Keys))), rows, nextId)
  }

  /** `retrieve`: a key outside the served posts is not found. */
  function RetrieveEffect(rows: Rows, nextId: int, id: int): Effect {
    if id in Served(rows) then Effect(Reply(HttpOk, PostBody(id, rows[id])), rows, nextId)
    else Effect(Reply(HttpNotFound, Detail), rows, nextId)
  }

  /**
   * `create`: an anonymous caller is refused by `IsAuthenticatedOrReadOnly`,
   * invalid data gets the field errors, and otherwise `perform_create` saves
   * a new post whose author is the caller.
   */
  function CreateEffect(rows: Rows, nextId: int, caller: Option<int>, data: Payload, now: int, slugify: string -> string): Effect {
    if caller.None? then Effect(Reply(HttpUnauthorized, Detail), rows, nextId)
    else CreateOutcome(rows, nextId, caller.value, PostValidation(data, false), now, slugify)
  }

  /** What `create` does for an authenticated `author` once the serializer has answered `validated`. */
  function CreateOutcome(rows: Rows, nextId: int, author: int, validated: Result<PostInput, Errors>, now: int, slugify: string -> string): Effect {
    match validated
    case Failure(errors) => Effect(Reply(HttpBadRequest, FieldErrors(errors)), rows, nextId)
    case Success(input) =>
      var s := SaveOutcome(rows, nextId, NewInstance(author, input), now, slugify);
      if !s.ok then Effect(Reply(HttpServerError, ServerError), rows, nextId)
      else Effect(Reply(HttpCreated, PostBody(s.post.id.value, s.post.row)), s.rows, s.nextId)
  }

  /** `serializer.save(author=request.user)`: the instance `ModelSerializer.create` builds. */
  function NewInstance(author: int, input: PostInput): PostState {
    NewPost(author, input.title.GetOr(""), input.content.GetOr(""), input.isPublished)
  }

  /** `ModelSerializer.update`: the submitted fields overwrite the stored ones, the rest stay. */
  function Updated(row: PostRow, input: PostInput): PostRow {
    row.(title := input.title.GetOr(row.title), content := input.content.GetOr(row.content),
         isPublished := input.isPublished.GetOr(row.isPublished))
  }

  /**
   * `update` and `partial_update`: authentication, then the lookup in the
   * served posts, then the object permission, then the data, then `save`.
   */
  function UpdateEffect(rows: Rows, nextId: int, caller: Option<int>, mayChange: MayChange, id: int,
                        data: Payload, partial: bool, now: int, slugify: string -> string): Effect {
    if caller.None? then Effect(Reply(HttpUnauthorized, Detail), rows, nextId)
    else if id !in Served(rows) then Effect(Reply(HttpNotFound, Detail), rows, nextId)
    else if !mayChange(caller.value, id, rows[id]) then Effect(Reply(HttpForbidden, Detail), rows, nextId)
    else UpdateOutcome(rows, nextId, id, PostValidation(data, partial), now, slugify)
  }

  /** What `update` does with the served post `id` once the serializer has answered `validated`. */
  function UpdateOutcome(rows: Rows, nextId: int, id: int, validated: Result<PostInput, Errors>, now: int, slugify: string -> string): Effect
    requires id in rows
  {
    match validated
    case Failure(errors) => Effect(Reply(HttpBadRequest, FieldErrors(errors)), rows, nextId)
    case Success(input) =>
      var s := SaveOutcome(rows, nextId, PostState(Some(id), Updated(rows[id], input)), now, slugify);
      if !s.ok then Effect(Reply(HttpServerError, ServerError), rows, nextId)
      else Effect(Reply(HttpOk, PostBody(id, s.post.row)), s.rows, s.nextId)
  }

  /** `destroy`: the same three checks, then the row is deleted. */
  function DestroyEffect(rows: Rows, nextId: int, caller: Option<int>, mayChange: MayChange, id: int): Effect {
    if caller.None? then Effect(Reply(HttpUnauthorized, Detail), rows, nextId)
    else if id !in Served(rows) then Effect(Reply(HttpNotFound, Detail), rows, nextId)
    else if !mayChange(caller.value, id, rows[id]) then Effect(Reply(HttpForbidden, Detail), rows, nextId)
    else Effect(Reply(HttpNoContent, NoBody), rows - {id}, nextId)
  }

  // ---------------------------------------------------------------------
  // Visibility

  /** The listing holds every published post once, newest first, and no draft. */
  lemma {:induction false} ListShowsPublished(rows: Rows, nextId: int)
    ensures var e := ListEffect(rows, nextId); var ids := e.reply.body.ids;
      && e.reply.status == HttpOk && e.reply.body.Listed? && e.rows == rows
      && (forall k :: k in ids <==> k in rows && rows[k].isPublished)
      && (forall i, j | 0 <= i < j < |ids| :: ids[i] != ids[j])
      && (forall i, j | 0 <= i < j < |ids| :: rows[ids[i]].createdAt >= rows[ids[j]].createdAt)
  {
    var ids := Listing(rows, Served(rows).Keys);
    forall k ensures k in ids <==> k in rows && rows[k].isPublished {
      assert k in Served(rows).Keys <==> k in rows && rows[k].isPublished;
    }
  }

  /**
   * A draft cannot be reached through the viewset by anyone, its author
   * included: every action on it is refused and the table does not change.
   */
  lemma {:induction false} DraftsUnreachable(rows: Rows, nextId: int, caller: Option<int>, mayChange: MayChange, id: int,
                          data: Payload, partial: bool, now: int, slugify: string -> string)
    requires id !in rows || !rows[id].isPublished
    ensures RetrieveEffect(rows, nextId, id) == Effect(Reply(HttpNotFound, Detail), rows, nextId)
    ensures var e := UpdateEffect(rows, nextId, caller, mayChange, id, data, partial, now, slugify);
      e.rows == rows && (e.reply.status == HttpUnauthorized || e.reply.status == HttpNotFound)
    ensures var e := DestroyEffect(rows, nextId, caller, mayChange, id);
      e.rows == rows && (e.reply.status == HttpUnauthorized || e.reply.status == HttpNotFound)
  {
    assert id !in Served(rows);
  }

  // ---------------------------------------------------------------------
  // Create

  /** A valid create answers 201 or 500: a 500 changes nothing, a 201 stores the saved instance under the next key. */
  lemma {:induction false} CreateOutcomeStores(rows: Rows, nextId: int, author: int, validated: Result<PostInput, Errors>, now: int, slugify: string -> string)
    requires nextId !in rows && validated.Success?
    ensures var e := CreateOutcome(rows, nextId, author, validated, now, slugify);
      var p := NewInstance(author, validated.value);
      && (e.reply.status == HttpCreated || e.reply.status == HttpServerError)
      && (e.reply.status == HttpServerError ==> e.rows == rows && e.nextId == nextId)
      && (e.reply.status == HttpCreated ==>
            && e.rows == rows[nextId := e.rows[nextId]] && e.nextId == nextId + 1
            && e.reply.body == PostBody(nextId, e.rows[nextId])
            && e.rows[nextId] == Prepared(rows, p, now, slugify).row)
  {
    SaveWritesOneRow(rows, nextId, NewInstance(author, validated.value), now, slugify);
  }

  /**
   * A created post is stored under the next key as its caller's: the author
   * is the caller whatever the body says, and no other row changes.
   */
  lemma {:induction false} CreateStoresCallersPost(rows: Rows, nextId: int, caller: Option<int>, data: Payload, now: int, slugify: string -> string)
    requires nextId !in rows
    requires CreateEffect(rows, nextId, caller, data, now, slugify).reply.status == HttpCreated
    ensures caller.Some? && nextId in CreateEffect(rows, nextId, caller, data, now, slugify).rows
    ensures var e := CreateEffect(rows, nextId, caller, data, now, slugify); var r := e.rows[nextId];
      && e.rows == rows[nextId := r] && e.nextId == nextId + 1
      && e.reply.body == PostBody(nextId, r)
      && r.author == caller.value
  {
    var v := PostValidation(data, false);
    assert caller.Some? && v.Success?;
    CreateOutcomeStores(rows, nextId, caller.value, v, now, slugify);
  }

  /** The row a successful save of a new instance stores: the validated text and flag, unchanged. */
  lemma {:induction false} CreateOutcomeText(rows: Rows, nextId: int, author: int, validated: Result<PostInput, Errors>, now: int, slugify: string -> string)
    requires nextId !in rows && validated.Success?
    requires CreateOutcome(rows, nextId, author, validated, now, slugify).reply.status == HttpCreated
    ensures nextId in CreateOutcome(rows, nextId, author, validated, now, slugify).rows
    ensures var r := CreateOutcome(rows, nextId, author, validated, now, slugify).rows[nextId];
      && r.title == validated.value.title.GetOr("") && r.content == validated.value.content.GetOr("")
      && r.isPublished == validated.value.isPublished.GetOr(true)
  {
    CreateOutcomeStores(rows, nextId, author, validated, now, slugify);
  }

  /** The created row holds the cleaned title and content. */
  lemma {:induction false} CreateStoresCleanText(rows: Rows, nextId: int, caller: Option<int>, data: Payload, now: int, slugify: string -> string)
    requires nextId !in rows
    requires CreateEffect(rows, nextId, caller, data, now, slugify).reply.status == HttpCreated
    ensures "title" in data && "content" in data && nextId in CreateEffect(rows, nextId, caller, data, now, slugify).rows
    ensures var e := CreateEffect(rows, nextId, caller, data, now, slugify); var r := e.rows[nextId];
      r.title == Strip(data["title"]) && r.content == Strip(data["content"])
  {
    var v := PostValidation(data, false);
    assert caller.Some? && v.Success?;
    CreateOutcomeText(rows, nextId, caller.value, v, now, slugify);
  }

  /** The created row's `is_published` is the submitted flag or, when none was sent, the default: true. */
  lemma {:induction false} CreatePublishedByDefault(rows: Rows, nextId: int, caller: Option<int>, data: Payload, now: int, slugify: string -> string)
    requires nextId !in rows
    requires CreateEffect(rows, nextId, caller, data, now, slugify).reply.status == HttpCreated
    ensures PublishedField(data).Success? && nextId in CreateEffect(rows, nextId, caller, data, now, slugify).rows
    ensures var e := CreateEffect(rows, nextId, caller, data, now, slugify);
      e.rows[nextId].isPublished == PublishedField(data).value.GetOr(true)
  {
    var v := PostValidation(data, false);
    assert caller.Some? && v.Success?;
    CreateOutcomeStores(rows, nextId, caller.value, v, now, slugify);
  }

  /** The created row's slug is derived from its title, and both timestamps are the time of the request. */
  lemma {:induction false} CreateDerivesSlug(rows: Rows, nextId: int, caller: Option<int>, data: Payload, now: int, slugify: string -> string)
    requires nextId !in rows
    requires CreateEffect(rows, nextId, caller, data, now, slugify).reply.status == HttpCreated
    ensures nextId in CreateEffect(rows, nextId, caller, data, now, slugify).rows
    ensures var e := CreateEffect(rows, nextId, caller, data, now, slugify); var r := e.rows[nextId];
      r.slug == slugify(r.title) && r.createdAt == now && r.updatedAt == now
  {
    var v := PostValidation(data, false);
    assert caller.Some? && v.Success?;
    CreateOutcomeStores(rows, nextId, caller.value, v, now, slugify);
  }

  /** Storing a draft, under any key, leaves what the viewset serves as it was. */
  lemma {:induction false} DraftKeepsServed(rows: Rows, k: int, r: PostRow)
    requires k !in rows && !r.isPublished
    ensures Served(rows[k := r]) == Served(rows)
  {
    assert Served(rows[k := r]).Keys == Served(rows).Keys;
  }

  /** A post created as a draft is stored, yet is at once outside what the viewset serves. */
  lemma {:induction false} CreatedDraftIsHidden(rows: Rows, nextId: int, caller: Option<int>, data: Payload, now: int, slugify: string -> string)
    requires nextId !in rows
    requires CreateEffect(rows, nextId, caller, data, now, slugify).reply.status == HttpCreated
    requires PublishedField(data) == Success(Some(false))
    ensures var e := CreateEffect(rows, nextId, caller, data, now, slugify);
      nextId in e.rows && nextId !in Served(e.rows) && Served(e.rows) == Served(rows)
  {
    var v := PostValidation(data, false);
    assert caller.Some? && v.Success? && v.value.isPublished == Some(false);
    CreateOutcomeStores(rows, nextId, caller.value, v, now, slugify);
    CreateOutcomeText(rows, nextId, caller.value, v, now, slugify);
    var e := CreateOutcome(rows, nextId, caller.value, v, now, slugify);
    DraftKeepsServed(rows, nextId, e.rows[nextId]);
  }

  /** Saving a new post fails only on a clashing slug, and then changes nothing. */
  lemma {:induction false} CreateOutcomeFails(rows: Rows, nextId: int, author: int, validated: Result<PostInput, Errors>, now: int, slugify: string -> string)
    ensures var e := CreateOutcome(rows, nextId, author, validated, now, slugify);
      && (e.reply.status == HttpCreated || e.reply.status == HttpBadRequest || e.reply.status == HttpServerError)
      && (e.reply.status == HttpBadRequest <==> validated.Failure?)
      && (e.reply.status != HttpCreated ==> e.rows == rows && e.nextId == nextId)
  {
    if validated.Success? {
      SaveWritesOneRow(rows, nextId, NewInstance(author, validated.value), now, slugify);
    }
  }

  /** A create that does not answer 201 leaves the table as it was. */
  lemma {:induction false} CreateFailureChangesNothing(rows: Rows, nextId: int, caller: Option<int>, data: Payload, now: int, slugify: string -> string)
    ensures var e := CreateEffect(rows, nextId, caller, data, now, slugify);
      && (e.reply.status != HttpCreated ==> e.rows == rows && e.nextId == nextId)
      && (e.reply.status == HttpUnauthorized <==> caller.None?)
      && (e.reply.status == HttpBadRequest <==> caller.Some? && PostValidation(data, false).Failure?)
  {
    var e := CreateEffect(rows, nextId, caller, data, now, slugify);
    if caller.None? {
      assert e == Effect(Reply(HttpUnauthorized, Detail), rows, nextId);
    } else {
      var v := PostValidation(data, false);
      CreateOutcomeFails(rows, nextId, caller.value, v, now, slugify);
      assert e == CreateOutcome(rows, nextId, caller.value, v, now, slugify);
    }
  }

  // ---------------------------------------------------------------------
  // Update and destroy

  /** The save behind a successful update keeps what `save` keeps and takes the submitted fields. */
  lemma {:induction false} UpdateOutcomeKeeps(rows: Rows, nextId: int, id: int, validated: Result<PostInput, Errors>, now: int, slugify: string -> string)
    requires id in rows
    ensures var e := UpdateOutcome(rows, nextId, id, validated, now, slugify);
      && (e.reply.status == HttpBadRequest <==> validated.Failure?)
      && (e.reply.status != HttpOk ==> e.rows == rows && e.nextId == nextId)
      && (e.reply.status == HttpOk ==>
            && validated.Success?
            && e.rows == rows[id := e.rows[id]] && (id < nextId ==> e.nextId == nextId)
            && e.reply.body == PostBody(id, e.rows[id])
            && e.rows[id] == Prepared(rows, PostState(Some(id), Updated(rows[id], validated.value)), now, slugify).row)
  {
    if validated.Success? {
      SaveWritesOneRow(rows, nextId, PostState(Some(id), Updated(rows[id], validated.value)), now, slugify);
    }
  }

  /**
   * A successful update rewrites only the served post it names: its author
   * and `created_at` stay, its slug stays once set, the submitted fields
   * are the cleaned input and the others keep their stored values.
   */
  lemma {:induction false} UpdateKeepsIdentity(rows: Rows, nextId: int, caller: Option<int>, mayChange: MayChange, id: int,
                            data: Payload, partial: bool, now: int, slugify: string -> string)
    requires ValidRows(rows, nextId)
    requires UpdateEffect(rows, nextId, caller, mayChange, id, data, partial, now, slugify).reply.status == HttpOk
    ensures caller.Some? && id in rows && rows[id].isPublished && mayChange(caller.value, id, rows[id])
    ensures id in UpdateEffect(rows, nextId, caller, mayChange, id, data, partial, now, slugify).rows
    ensures var e := UpdateEffect(rows, nextId, caller, mayChange, id, data, partial, now, slugify); var r := e.rows[id];
      && e.rows == rows[id := r] && e.nextId == nextId && e.reply.body == PostBody(id, r)
      && r.author == rows[id].author && r.createdAt == rows[id].createdAt && r.updatedAt == now
      && (rows[id].slug != [] ==> r.slug == rows[id].slug)
      && r.title == (if "title" in data then Strip(data["title"]) else rows[id].title)
      && r.content == (if "content" in data then Strip(data["content"]) else rows[id].content)
  {
    assert caller.Some? && id in Served(rows);
    UpdateOutcomeKeeps(rows, nextId, id, PostValidation(data, partial), now, slugify);
  }

  /** Every refusal of update or destroy leaves the table as it was; only 204 removes the post. */
  lemma {:induction false} WritesRefusedChangeNothing(rows: Rows, nextId: int, caller: Option<int>, mayChange: MayChange, id: int,
                                   data: Payload, partial: bool, now: int, slugify: string -> string)
    ensures var e := UpdateEffect(rows, nextId, caller, mayChange, id, data, partial, now, slugify);
      e.reply.status != HttpOk ==> e.rows == rows && e.nextId == nextId
    ensures var e := DestroyEffect(rows, nextId, caller, mayChange, id);
      && (e.reply.status != HttpNoContent ==> e.rows == rows)
      && (e.reply.status == HttpNoContent <==>
            caller.Some? && id in rows && rows[id].isPublished && mayChange(caller.value, id, rows[id]))
      && (e.reply.status == HttpNoContent ==> e.rows == rows - {id})
  {
    if caller.Some? && id in Served(rows) {
      UpdateOutcomeKeeps(rows, nextId, id, PostValidation(data, partial), now, slugify);
    }
  }

  /** Saving a new post keeps the table's integrity. */
  lemma {:induction false} CreateOutcomeKeepsValid(rows: Rows, nextId: int, author: int, validated: Result<PostInput, Errors>, now: int, slugify: string -> string)
    requires ValidRows(rows, nextId)
    ensures var e := CreateOutcome(rows, nextId, author, validated, now, slugify); ValidRows(e.rows, e.nextId)
  {
    if validated.Success? {
      SaveKeepsValid(rows, nextId, NewInstance(author, validated.value), now, slugify);
    }
  }

  /** Saving an updated post keeps the table's integrity. */
  lemma {:induction false} UpdateOutcomeKeepsValid(rows: Rows, nextId: int, id: int, validated: Result<PostInput, Errors>, now: int, slugify: string -> string)
    requires ValidRows(rows, nextId) && id in rows
    ensures var e := UpdateOutcome(rows, nextId, id, validated, now, slugify); ValidRows(e.rows, e.nextId)
  {
    if validated.Success? {
      SaveKeepsValid(rows, nextId, PostState(Some(id), Updated(rows[id], validated.value)), now, slugify);
    }
  }

  /** No action breaks the table's integrity. */
  lemma {:induction false} CreateKeepsValid(rows: Rows, nextId: int, caller: Option<int>, data: Payload, now: int, slugify: string -> string)
    requires ValidRows(rows, nextId)
    ensures var e := CreateEffect(rows, nextId, caller, data, now, slugify); ValidRows(e.rows, e.nextId)
  {
    if caller.Some? {
      CreateOutcomeKeepsValid(rows, nextId, caller.value, PostValidation(data, false), now, slugify);
    }
  }

  lemma {:induction false} UpdateKeepsValid(rows: Rows, nextId: int, caller: Option<int>, mayChange: MayChange, id: int,
                         data: Payload, partial: bool, now: int, slugify: string -> string)
    requires ValidRows(rows, nextId)
    ensures var e := UpdateEffect(rows, nextId, caller, mayChange, id, data, partial, now, slugify); ValidRows(e.rows, e.nextId)
  {
    if caller.Some? && id in Served(rows) {
      UpdateOutcomeKeepsValid(rows, nextId, id, PostValidation(data, partial), now, slugify);
    }
  }

  lemma {:induction false} DestroyKeepsValid(rows: Rows, nextId: int, caller: Option<int>, mayChange: MayChange, id: int)
    requires ValidRows(rows, nextId)
    ensures var e := DestroyEffect(rows, nextId, caller, mayChange, id); ValidRows(e.rows, e.nextId)
  {
  }

  // ---------------------------------------------------------------------
  // The actions on a table

  /** `create` followed by `perform_create`: a new `Post` object, its author set to the caller, saved. */
  method Create(table: PostTable, caller: Option<int>, data: Payload, now: int, slugify: string -> string) returns (reply: Reply)
    modifies table
    ensures var e := CreateEffect(old(table.rows), old(table.nextId), caller, data, now, slugify);
      reply == e.reply && table.rows == e.rows && table.nextId == e.nextId
    ensures old(table.Valid()) ==> table.Valid()
  {
    if caller.None? {
      return Reply(HttpUnauthorized, Detail);
    }
    var validated := PostValidation(data, false);
    if validated.Failure? {
      return Reply(HttpBadRequest, FieldErrors(validated.error));
    }
    reply := SaveNew(table, caller.value, validated.value, now, slugify);
  }

  /** `perform_create`: the new `Post` object, its author set to the caller, saved. */
  method SaveNew(table: PostTable, author: int, input: PostInput, now: int, slugify: string -> string) returns (reply: Reply)
    modifies table
    ensures var e := CreateOutcome(old(table.rows), old(table.nextId), author, Success(input), now, slugify);
      reply == e.reply && table.rows == e.rows && table.nextId == e.nextId
    ensures old(table.Valid()) ==> table.Valid()
  {
    var post := new Post(NewInstance(author, input));
    var ok := post.Save(table, now, slugify);
    if !ok {
      return Reply(HttpServerError, ServerError);
    }
    reply := Reply(HttpCreated, PostBody(post.id.value, post.State().row));
  }

  /** `retrieve`. */
  method Retrieve(table: PostTable, id: int) returns (reply: Reply)
    ensures reply == RetrieveEffect(table.rows, table.nextId, id).reply
  {
    var served := Served(table.rows);
    if id !in served {
      return Reply(HttpNotFound, Detail);
    }
    reply := Reply(HttpOk, PostBody(id, served[id]));
  }

  /** `update`/`partial_update`. */
  method Update(table: PostTable, caller: Option<int>, mayChange: MayChange, id: int, data: Payload, partial: bool,
                now: int, slugify: string -> string) returns (reply: Reply)
    modifies table
    ensures var e := UpdateEffect(old(table.rows), old(table.nextId), caller, mayChange, id, data, partial, now, slugify);
      reply == e.reply && table.rows == e.rows && table.nextId == e.nextId
    ensures old(table.Valid()) ==> table.Valid()
  {
    if caller.None? {
      return Reply(HttpUnauthorized, Detail);
    }
    var served := Served(table.rows);
    if id !in served {
      return Reply(HttpNotFound, Detail);
    }
    if !mayChange(caller.value, id, served[id]) {
      return Reply(HttpForbidden, Detail);
    }
    var validated := PostValidation(data, partial);
    if validated.Failure? {
      return Reply(HttpBadRequest, FieldErrors(validated.error));
    }
    reply := SaveExisting(table, id, validated.value, now, slugify);
  }

  /** `perform_update`: the stored post as an object, the submitted fields assigned, saved. */
  method SaveExisting(table: PostTable, id: int, input: PostInput, now: int, slugify: string -> string) returns (reply: Reply)
    requires id in table.rows
    modifies table
    ensures var e := UpdateOutcome(old(table.rows), old(table.nextId), id, Success(input), now, slugify);
      reply == e.reply && table.rows == e.rows && table.nextId == e.nextId
    ensures old(table.Valid()) ==> table.Valid()
  {
    var post := new Post(PostState(Some(id), Updated(table.rows[id], input)));
    var ok := post.Save(table, now, slugify);
    if !ok {
      return Reply(HttpServerError, ServerError);
    }
    reply := Reply(HttpOk, PostBody(id, post.State().row));
  }

  /** `destroy`. */
  method Destroy(table: PostTable, caller: Option<int>, mayChange: MayChange, id: int) returns (reply: Reply)
    modifies table
    ensures var e := DestroyEffect(old(table.rows), old(table.nextId), caller, mayChange, id);
      reply == e.reply && table.rows == e.rows && table.nextId == e.nextId
    ensures old(table.Valid()) ==> table.Valid()
  {
    if caller.None? {
      return Reply(HttpUnauthorized, Detail);
    }
    var served := Served(table.rows);
    if id !in served {
      return Reply(HttpNotFound, Detail);
    }
    if !mayChange(caller.value, id, served[id]) {
      return Reply(HttpForbidden, Detail);
    }
    table.Delete(id);
    reply := Reply(HttpNoContent, NoBody);
  }
}
