/**
 * backend/resolvers/tag.resolver.ts over in-memory tables: tags, the
 * user-tag association and custom tags (a name with a saved search term).
 * The user table is read-only here and passed in.
 */
module TagResolver {
  import opened Wrappers
  import opened Domain
  import opened JsNumber
  import opened UserResolver

  /** Stands for the store's own error when an update or connect finds no row. */
  const RecordNotFound := "Record not found"

  /** One row of the association between users and tags. */
  datatype UserTag = UserTag(userId: int, tagId: int)

  /** A user returned together with its tags (the association rows with their tag included). */
  datatype UserWithTags = UserWithTags(user: User, tags: seq<Tag>)

  function TagById(tags: seq<Tag>, id: int): (r: Option<Tag>)
    ensures r.Some? ==> r.value in tags && r.value.id == id
    ensures r.None? <==> forall t :: t in tags ==> t.id != id
  {
    if tags == [] then None
    else if tags[0].id == id then Some(tags[0])
    else TagById(tags[1..], id)
  }

  /** The tags linked to a user: one per association row of that user, in association order. */
  function TagsOfUser(tags: seq<Tag>, links: seq<UserTag>, userId: int): (r: seq<Tag>)
    ensures forall t :: t in r <==> exists l :: l in links && l.userId == userId && TagById(tags, l.tagId) == Some(t)
  {
    if links == [] then []
    else
      var rest := TagsOfUser(tags, links[1..], userId);
      assert forall l :: l in links <==> l == links[0] || l in links[1..];
      var l := links[0];
      if l.userId == userId && TagById(tags, l.tagId).Some? then [TagById(tags, l.tagId).value] + rest else rest
  }

  /** `userTags(userId)`: the user's tags, [] for an unknown user; a NaN id makes the store throw. */
  function UserTags(users: seq<User>, tags: seq<Tag>, links: seq<UserTag>, userId: string): (r: Result<seq<Tag>>)
    ensures ParseInt(userId).None? <==> r.Err?
    ensures r.Ok? && UserById(users, ParseInt(userId).value).None? ==> r.value == []
    ensures r.Ok? ==> forall t :: t in r.value ==> t in tags
    ensures r.Ok? && UserById(users, ParseInt(userId).value).Some? ==>
      r.value == TagsOfUser(tags, links, ParseInt(userId).value)
  {
    match ParseInt(userId)
    case None => Err(InvalidId)
    case Some(id) =>
      match UserById(users, id)
      case None => Ok([])
      case Some(u) => Ok(TagsOfUser(tags, links, u.id))
  }

  /** The tag, association and custom-tag tables, each with an auto-increment id. */
  class TagTables {
    var tags: seq<Tag>
    var links: seq<UserTag>
    var customTags: seq<CustomTag>
    var nextTagId: int
    var nextCustomTagId: int

    ghost predicate Valid()
      reads this
    {
      TagIdsBelow(tags, nextTagId) && CustomTagIdsBelow(customTags, nextCustomTagId) && LinksResolve(tags, links)
    }

    constructor ()
      ensures Valid() && tags == [] && links == [] && customTags == []
      ensures nextTagId == 1 && nextCustomTagId == 1
    {
      tags, links, customTags := [], [], [];
      nextTagId, nextCustomTagId := 1, 1;
    }

    /** `tags`: every stored tag. */
    function AllTags(): (r: seq<Tag>)
      reads this
      ensures forall t :: t in r <==> t in tags
      ensures multiset(r) == multiset(tags)
    {
      tags
    }

    /** `customTags`: every stored custom tag. */
    function AllCustomTags(): (r: seq<CustomTag>)
      reads this
      ensures forall c :: c in r <==> c in customTags
      ensures multiset(r) == multiset(customTags)
    {
      customTags
    }

    /** `createTag(name)`: adds one tag with that name and returns it; nothing else changes. */
    method CreateTag(name: string) returns (t: Tag)
      requires Valid()
      modifies this
      ensures Valid()
      ensures t == Tag(old(nextTagId), name) && tags == old(tags) + [t]
      ensures forall u :: u in old(tags) ==> u.id != t.id
      ensures links == old(links) && customTags == old(customTags)
      ensures nextTagId == old(nextTagId) + 1 && nextCustomTagId == old(nextCustomTagId)
    {
      t := Tag(nextTagId, name);
      TagByIdExtends(tags, t);
      assert LinksResolve(tags + [t], links);
      tags := tags + [t];
      nextTagId := nextTagId + 1;
    }

    /** `createCustomTag(name, searchTerm)`: stores the pair and returns it unchanged. */
    method CreateCustomTag(name: string, searchTerm: string) returns (c: CustomTag)
      requires Valid()
      modifies this
      ensures Valid()
      ensures c == CustomTag(old(nextCustomTagId), name, searchTerm)
      ensures customTags == old(customTags) + [c] && c in AllCustomTags()
      ensures tags == old(tags) && links == old(links)
      ensures nextTagId == old(nextTagId) && nextCustomTagId == old(nextCustomTagId) + 1
    {
      c := CustomTag(nextCustomTagId, name, searchTerm);
      customTags := customTags + [c];
      nextCustomTagId := nextCustomTagId + 1;
    }

    /**
     * `addUserTag(userId, tagId)`: links the tag to the user and returns the
     * user with its tags. A NaN id, an unknown user or an unknown tag makes
     * the store throw, and nothing changes.
     */
    method AddUserTag(users: seq<User>, userId: string, tagId: string) returns (r: Result<UserWithTags>)
      requires Valid()
      modifies this
      ensures Valid()
      ensures tags == old(tags) && customTags == old(customTags)
      ensures nextTagId == old(nextTagId) && nextCustomTagId == old(nextCustomTagId)
      ensures r.Ok? <==>
        ParseInt(userId).Some? && ParseInt(tagId).Some? &&
        UserById(users, ParseInt(userId).value).Some? && TagById(tags, ParseInt(tagId).value).Some?
      ensures r.Err? ==> links == old(links)
      ensures r.Ok? ==>
        var u := UserById(users, ParseInt(userId).value).value;
        var t := TagById(tags, ParseInt(tagId).value).value;
        links == old(links) + [UserTag(u.id, t.id)] &&
        r.value == UserWithTags(u, TagsOfUser(tags, links, u.id)) &&
        t in r.value.tags &&
        UserTags(users, tags, links, userId) == Ok(r.value.tags)
    {
      var uid := ParseInt(userId);
      var tid := ParseInt(tagId);
      if uid.None? || tid.None? {
        return Err(InvalidId);
      }
      var user := UserById(users, uid.value);
      var tag := TagById(tags, tid.value);
      if user.None? || tag.None? {
        return Err(RecordNotFound);
      }
      var link := UserTag(user.value.id, tag.value.id);
      LinksResolveAppend(tags, links, link);
      links := links + [link];
      LinkedTagListed(tags, links, link);
      assert UserTags(users, tags, links, userId) == Ok(TagsOfUser(tags, links, user.value.id));
      r := Ok(UserWithTags(user.value, TagsOfUser(tags, links, user.value.id)));
    }
  }

  /** Tag ids strictly increase along the table and stay below the next id. */
  ghost predicate TagIdsBelow(tags: seq<Tag>, next: int)
  {
    (forall i, j :: 0 <= i < j < |tags| ==> tags[i].id < tags[j].id) &&
    (forall i :: 0 <= i < |tags| ==> tags[i].id < next)
  }

  ghost predicate CustomTagIdsBelow(customTags: seq<CustomTag>, next: int)
  {
    (forall i, j :: 0 <= i < j < |customTags| ==> customTags[i].id < customTags[j].id) &&
    (forall i :: 0 <= i < |customTags| ==> customTags[i].id < next)
  }

  /** Every association row refers to a stored tag. */
  ghost predicate LinksResolve(tags: seq<Tag>, links: seq<UserTag>)
  {
    forall l :: l in links ==> TagById(tags, l.tagId).Some?
  }

  lemma LinksResolveAppend(tags: seq<Tag>, links: seq<UserTag>, l: UserTag)
    requires LinksResolve(tags, links) && TagById(tags, l.tagId).Some?
    ensures LinksResolve(tags, links + [l])
  {
  }

  /** A link to a stored tag puts that tag among the user's tags. */
  lemma LinkedTagListed(tags: seq<Tag>, links: seq<UserTag>, l: UserTag)
    requires l in links && TagById(tags, l.tagId).Some?
    ensures TagById(tags, l.tagId).value in TagsOfUser(tags, links, l.userId)
  {
  }

  /** Appending a tag with a fresh id keeps every earlier lookup. */
  lemma TagByIdExtends(tags: seq<Tag>, t: Tag)
    requires forall u :: u in tags ==> u.id != t.id
    ensures forall id :: TagById(tags, id).Some? ==> TagById(tags + [t], id) == TagById(tags, id)
  {
    if tags != [] {
      TagByIdExtends(tags[1..], t);
      assert (tags + [t])[1..] == tags[1..] + [t];
    }
  }
}
