/**
  The card and user tables as the core uses them through the ORM: an
  in-memory store with auto-increment ids.  Most methods are one ORM call
  of backend/zettle/models.py or of the demo command: `objects.create`, a
  row's `save()`, `tags.add`, delete with SET_NULL, `User.objects.get`,
  `create_user` and `get_or_create`.  Two are the `upload_to` helpers of
  the models, which fill in an empty title on the instance, and one is
  `image.save`: store the file under the helper's path, then save the
  row.  The error the database or the ORM raises is a Failure.
*/
module ZettleStore {
  import opened Wrappers
  import opened PyStr
  import opened PathLib
  import opened ZettleModels

  /** A row of the users table (password hash, dates and permissions tables left out). */
  datatype User = User(
    username: string,
    email: string,
    firstName: string,
    lastName: string,
    isStaff: bool,
    isSuperuser: bool)

  /** What the ORM or the database raises. */
  datatype Error =
    | UserDoesNotExist(username: string)
    | MultipleTopics(title: string)
    | EmptyUsername
    | DuplicateUsername(username: string)
    | BrokenReference
    | CannotUnpack(fullName: string)

  /** `username` is a unique column. */
  ghost predicate UniqueUsernames(users: map<UserId, User>)
  {
    forall u, v {:trigger users[u].username, users[v].username} ::
      u in users && v in users && users[u].username == users[v].username ==> u == v
  }

  /** The columns a new card is given besides its author and parent. */
  datatype Fields = Fields(
    cardType: CardType,
    title: string,
    text: string,
    url: string,
    slug: string,
    votes: int,
    x: Option<int>,
    y: Option<int>,
    replyTo: Option<CardId>)

  /** The model's defaults: type "text", one vote, every other column blank or null. */
  const DefaultFields := Fields(Text, "", "", "", "", 1, None, None, None)

  /** The row `ZettleCard.objects.create` inserts. */
  function NewCard(uuid: string, f: Fields, author: Option<UserId>, parent: Option<CardId>): (c: Card)
    ensures c.uuid == uuid && c.author == author && c.parent == parent
    ensures c.cardType == f.cardType && c.title == f.title && c.text == f.text && c.url == f.url
    ensures c.slug == f.slug && c.votes == f.votes && c.x == f.x && c.y == f.y && c.replyTo == f.replyTo
    ensures c.image == None && c.document == None && c.next == None && c.tags == {}
  {
    Card(uuid, f.cardType, author, f.title, f.votes, f.text, None, None, f.url,
         parent, None, f.replyTo, {}, f.slug, f.x, f.y)
  }

  class Store {
    var cards: map<CardId, Card>
    var users: map<UserId, User>
    var nextCard: nat
    var nextUser: nat
    /** The uuid `uuid4()` gives the card created with each id. */
    const uuidFor: CardId -> string

    ghost predicate Valid()
      reads this
    {
      && Consistent(cards)
      && (forall k :: k in cards ==> k < nextCard)
      && (forall u :: u in users ==> u < nextUser)
      && (forall k :: k in cards && cards[k].author.Some? ==> cards[k].author.value in users)
      && UniqueUsernames(users)
    }

    constructor (uuidFor: CardId -> string)
      ensures Valid()
      ensures cards == map[] && users == map[] && this.uuidFor == uuidFor
    {
      cards, users := map[], map[];
      nextCard, nextUser := 0, 0;
      this.uuidFor := uuidFor;
    }

    /** `User.objects.get(username=name)`. */
    method LookupUser(name: string) returns (r: Result<UserId, Error>)
      requires Valid()
      ensures r.Success? ==> r.value in users && users[r.value].username == name
      ensures r.Failure? ==> r.error == UserDoesNotExist(name)
      ensures r.Failure? ==> forall u :: u in users ==> users[u].username != name
    {
      var pending := users.Keys;
      while pending != {}
        invariant pending <= users.Keys
        invariant forall u :: u in users && u !in pending ==> users[u].username != name
        decreases pending
      {
        var u :| u in pending;
        if users[u].username == name {
          return Success(u);
        }
        pending := pending - {u};
      }
      return Failure(UserDoesNotExist(name));
    }

    /**
      `User.objects.create_user(username=..., email=...)`: a new user, unless
      the username is empty (a ValueError, raised before the database is
      touched) or taken.
    */
    method CreateUser(username: string, email: string) returns (r: Result<UserId, Error>)
      requires Valid()
      modifies this
      ensures Valid()
      ensures cards == old(cards) && nextCard == old(nextCard)
      ensures username == "" ==> r == Failure(EmptyUsername) && users == old(users) && nextUser == old(nextUser)
      ensures username != "" && (exists u :: u in old(users) && old(users)[u].username == username) ==>
        r == Failure(DuplicateUsername(username)) && users == old(users) && nextUser == old(nextUser)
      ensures username != "" && (forall u :: u in old(users) ==> old(users)[u].username != username) ==>
        && r == Success(old(nextUser))
        && users == old(users)[old(nextUser) := User(username, email, "", "", false, false)]
        && nextUser == old(nextUser) + 1
    {
      if username == "" {
        return Failure(EmptyUsername);
      }
      var found := LookupUser(username);
      if found.Success? {
        return Failure(DuplicateUsername(username));
      }
      r := Success(nextUser);
      users := users[nextUser := User(username, email, "", "", false, false)];
      nextUser := nextUser + 1;
    }

    /** Sets a user's name and flags, then `user.save()`. */
    method SaveUser(u: UserId, firstName: string, lastName: string, isStaff: bool, isSuperuser: bool)
      requires Valid() && u in users
      modifies this
      ensures Valid()
      ensures cards == old(cards) && nextCard == old(nextCard) && nextUser == old(nextUser)
      ensures users == old(users)[u := old(users)[u].(firstName := firstName, lastName := lastName,
                                                      isStaff := isStaff, isSuperuser := isSuperuser)]
    {
      users := users[u := users[u].(firstName := firstName, lastName := lastName,
                                    isStaff := isStaff, isSuperuser := isSuperuser)];
    }

    /** `ZettleCard.objects.create(author=..., parent=..., **fields)`; a reference to a missing row fails. */
    method Create(f: Fields, author: Option<UserId>, parent: Option<CardId>) returns (r: Result<CardId, Error>)
      requires Valid()
      modifies this
      ensures Valid()
      ensures users == old(users) && nextUser == old(nextUser)
      ensures (author.Some? ==> author.value in users) && RefersInto(old(cards), parent)
              && RefersInto(old(cards), f.replyTo) ==>
        && r == Success(old(nextCard))
        && cards == old(cards)[old(nextCard) := NewCard(uuidFor(old(nextCard)), f, author, parent)]
        && nextCard == old(nextCard) + 1
      ensures !((author.Some? ==> author.value in users) && RefersInto(old(cards), parent)
                && RefersInto(old(cards), f.replyTo)) ==>
        r == Failure(BrokenReference) && cards == old(cards) && nextCard == old(nextCard)
    {
      if !((author.Some? ==> author.value in users) && RefersInto(cards, parent) && RefersInto(cards, f.replyTo)) {
        return Failure(BrokenReference);
      }
      var id := nextCard;
      var c := NewCard(uuidFor(id), f, author, parent);
      InsertConsistent(cards, id, c);
      cards := cards[id := c];
      nextCard := nextCard + 1;
      r := Success(id);
    }

    /** `a.tags.add(b)` on the symmetrical relation. */
    method AddTag(a: CardId, b: CardId)
      requires Valid() && a in cards && b in cards
      modifies this
      ensures Valid()
      ensures cards == AddTagPair(old(cards), a, b)
      ensures users == old(users) && nextCard == old(nextCard) && nextUser == old(nextUser)
    {
      AddTagPairConsistent(cards, a, b);
      cards := AddTagPair(cards, a, b);
    }

    /**
      `a.next = b; a.save()`.  The one-to-one constraint rejects the save when
      another card already has `b` as its `next`.
    */
    method SetNext(a: CardId, b: CardId) returns (ok: bool)
      requires Valid() && a in cards && b in cards
      modifies this
      ensures Valid()
      ensures ok <==> forall c :: c in old(cards) && c != a ==> old(cards)[c].next != Some(b)
      ensures ok ==> cards == old(cards)[a := old(cards)[a].(next := Some(b))]
      ensures !ok ==> cards == old(cards)
      ensures users == old(users) && nextCard == old(nextCard) && nextUser == old(nextUser)
    {
      var taken := set c | c in cards && c != a && cards[c].next == Some(b);
      ok := taken == {};
      if !ok {
        assert exists c :: c in taken;
        return;
      }
      assert forall c :: c in cards && c != a ==> (c in taken <==> cards[c].next == Some(b));
      RelinkConsistent(cards, a, b);
      cards := cards[a := cards[a].(next := Some(b))];
    }

    /** `card.delete()`: the row goes, every parent, next and reply_to naming it is nulled, its tag links go. */
    method Delete(id: CardId)
      requires Valid()
      modifies this
      ensures Valid()
      ensures cards == RemoveCard(old(cards), id)
      ensures users == old(users) && nextCard == old(nextCard) && nextUser == old(nextUser)
    {
      RemoveCardConsistent(cards, id);
      cards := RemoveCard(cards, id);
    }

    /** `card.save()` of columns other than the self-references and the author. */
    method Put(id: CardId, c: Card)
      requires Valid() && id in cards && SameLinks(c, cards[id]) && c.author == cards[id].author
      modifies this
      ensures Valid()
      ensures cards == old(cards)[id := c]
      ensures users == old(users) && nextCard == old(nextCard) && nextUser == old(nextUser)
    {
      SameLinksConsistent(cards, id, c);
      ghost var s := cards;
      cards := cards[id := c];
      assert forall k :: k in cards ==> cards[k].author == s[k].author;
    }

    /**
      `get_image_upload_path(instance, filename)` for the card `id`.  Django
      fills the empty title in on the in-memory instance only; here the
      stored row stands in for that instance, and the title reaches the
      database when the row is next saved.
    */
    method ImageUploadPath(id: CardId, filename: string) returns (path: string)
      requires Valid() && id in cards
      modifies this
      ensures Valid()
      ensures path == UploadPath("images", old(cards)[id].uuid, filename)
      ensures cards == old(cards)[id := old(cards)[id].(title := TitleAfterUpload(old(cards)[id].title, filename))]
      ensures users == old(users) && nextCard == old(nextCard) && nextUser == old(nextUser)
    {
      if cards[id].title == "" {
        Put(id, cards[id].(title := FormatFilenameAsTitle(filename)));
      }
      path := UploadPath("images", cards[id].uuid, filename);
    }

    /**
      `get_file_upload_path(instance, filename)` for the card `id`.  Django
      fills the empty title in on the in-memory instance only; here the
      stored row stands in for that instance, and the title reaches the
      database when the row is next saved.
    */
    method FileUploadPath(id: CardId, filename: string) returns (path: string)
      requires Valid() && id in cards
      modifies this
      ensures Valid()
      ensures path == UploadPath("files", old(cards)[id].uuid, filename)
      ensures cards == old(cards)[id := old(cards)[id].(title := TitleAfterUpload(old(cards)[id].title, filename))]
      ensures users == old(users) && nextCard == old(nextCard) && nextUser == old(nextUser)
    {
      if cards[id].title == "" {
        Put(id, cards[id].(title := FormatFilenameAsTitle(filename)));
      }
      path := UploadPath("files", cards[id].uuid, filename);
    }

    /**
      `card.image.save(filename, content)`: the upload path is computed (which may
      fill in the title) and stored in the image column, and the card is saved.
    */
    method AttachImage(id: CardId, filename: string)
      requires Valid() && id in cards
      modifies this
      ensures Valid()
      ensures cards == old(cards)[id := ImageSaved(old(cards)[id], filename)]
      ensures users == old(users) && nextCard == old(nextCard) && nextUser == old(nextUser)
    {
      var path := ImageUploadPath(id, filename);
      Put(id, cards[id].(image := Some(path)));
    }

    /**
      `ZettleCard.objects.get_or_create(card_type=TOPIC, title=title, defaults={"author": author})`:
      the one matching topic card, a new one when there is none, an error when there are several.
    */
    method GetOrCreateTopic(title: string, author: UserId) returns (r: Result<CardId, Error>)
      requires Valid() && author in users
      modifies this
      ensures Valid()
      ensures users == old(users) && nextUser == old(nextUser)
      ensures TopicsTitled(old(cards), title) == {} ==>
        && r == Success(old(nextCard))
        && cards == old(cards)[old(nextCard) :=
             NewCard(uuidFor(old(nextCard)), DefaultFields.(cardType := Topic, title := title), Some(author), None)]
        && nextCard == old(nextCard) + 1
      ensures |TopicsTitled(old(cards), title)| == 1 ==>
        r.Success? && TopicsTitled(old(cards), title) == {r.value} && cards == old(cards) && nextCard == old(nextCard)
      ensures |TopicsTitled(old(cards), title)| > 1 ==>
        r == Failure(MultipleTopics(title)) && cards == old(cards) && nextCard == old(nextCard)
    {
      var matches := TopicsTitled(cards, title);
      if matches == {} {
        r := Create(DefaultFields.(cardType := Topic, title := title), Some(author), None);
      } else if |matches| == 1 {
        var k :| k in matches;
        assert |matches - {k}| == 0;
        assert matches == {k};
        r := Success(k);
      } else {
        r := Failure(MultipleTopics(title));
      }
    }
  }
}
