/**
  `Command.create_card` of backend/core/management/commands/create_demo_data.py:
  one card from a nested spec, then its tags, children, replies and
  sequence, each by a recursive call.  Every step is a store method, so a
  database error surfaces as a Failure exactly where the ORM call raises.
*/
module DemoBuild {
  import opened Wrappers
  import opened ZettleModels
  import opened ZettleStore
  import opened DemoShape

  // ---------------------------------------------------------------- tags

  /** A topic that was the only one of its title before the card existed is the one its tag reuses. */
  ghost predicate TagsReused(before: map<CardId, Card>, head: Card, titles: seq<string>)
  {
    forall t :: t in titles && |TopicsTitled(before, t)| == 1 && !(head.cardType == Topic && head.title == t) ==>
      TopicsTitled(before, t) <= head.tags
  }

  /** Every title that had exactly one topic card in `s0` still has exactly that one in `s`. */
  ghost predicate UniqueTopicsKept(s0: map<CardId, Card>, s: map<CardId, Card>)
  {
    forall t :: |TopicsTitled(s0, t)| == 1 ==> TopicsTitled(s, t) == TopicsTitled(s0, t)
  }

  /** The tags of card `h` include the unique topic of each title in `titles`. */
  ghost predicate UniqueTopicsUsed(s0: map<CardId, Card>, s: map<CardId, Card>, h: CardId, titles: seq<string>)
    requires h in s
  {
    forall t :: t in titles && |TopicsTitled(s0, t)| == 1 ==> TopicsTitled(s0, t) <= s[h].tags
  }

  /** The cards added from `s0` to `s` are topic cards titled from `titles`. */
  ghost predicate AddedTopics(s0: map<CardId, Card>, s: map<CardId, Card>, titles: seq<string>)
  {
    forall k :: k in s && k !in s0 ==> s[k].cardType == Topic && s[k].title in titles
  }

  /** A title that had no topic card in `s0` has at most one in `s`: `get_or_create` never makes a second. */
  ghost predicate NewTopicsSingle(s0: map<CardId, Card>, s: map<CardId, Card>)
  {
    forall t :: TopicsTitled(s0, t) == {} ==> |TopicsTitled(s, t)| <= 1
  }

  /** What the tag loop has achieved from `s0` to `s` once the titles `done` are handled. */
  ghost predicate TagInv(s0: map<CardId, Card>, s: map<CardId, Card>, h: CardId, done: seq<string>)
  {
    && h in s && Evolves(s0, s, {}) && NewPointsNew(s0, s)
    && TaggedWith(s, h, done)
    && UniqueTopicsKept(s0, s) && UniqueTopicsUsed(s0, s, h, done)
    && AddedTopics(s0, s, done) && NewTopicsSingle(s0, s)
  }

  lemma TagInvStart(s: map<CardId, Card>, h: CardId)
    requires h in s
    ensures TagInv(s, s, h, [])
  {
    forall k | k in s ensures Kept(s[k], s[k], false) {
    }
  }

  /** What tagging card `h` with the topic titled `title` changed, from `s` to `t`. */
  ghost predicate OneTagged(s: map<CardId, Card>, t: map<CardId, Card>, h: CardId, title: string)
  {
    && h in t && Evolves(s, t, {}) && NewPointsNew(s, t)
    && TaggedWith(t, h, [title])
    && UniqueTopicsKept(s, t)
    && (|TopicsTitled(s, title)| == 1 ==> TopicsTitled(s, title) <= t[h].tags)
    && (TopicsTitled(s, title) == {} ==> |TopicsTitled(t, title)| == 1)
    && AddedTopics(s, t, [title])
  }

  /** `get_or_create` found the topic `k`, the only one of its title, and `h.tags.add(k)` followed. */
  lemma TagFound(s: map<CardId, Card>, h: CardId, k: CardId, title: string)
    requires h in s && k in TopicsTitled(s, title)
    requires |TopicsTitled(s, title)| == 1 ==> TopicsTitled(s, title) == {k}
    ensures OneTagged(s, AddTagPair(s, h, k), h, title)
  {
    var t := AddTagPair(s, h, k);
    AddTagEvolves(s, h, k);
    forall title' | |TopicsTitled(s, title')| == 1
      ensures TopicsTitled(t, title') == TopicsTitled(s, title')
    {
      TopicsTitledEvolves(s, t, {}, title');
    }
    assert Kept(s[k], t[k], false);
  }

  /** `get_or_create` created the topic `k` = `c`, there being none of its title, and `h.tags.add(k)` followed. */
  lemma TagCreated(s: map<CardId, Card>, h: CardId, k: CardId, c: Card, title: string)
    requires h in s && k !in s && TopicsTitled(s, title) == {}
    requires c.cardType == Topic && c.title == title && c.next == None
    ensures OneTagged(s, AddTagPair(s[k := c], h, k), h, title)
  {
    var s' := s[k := c];
    var t := AddTagPair(s', h, k);
    AddedOnly(s, s');
    AddTagEvolves(s', h, k);
    EvolvesTrans(s, s', t, {}, {});
    NewPointsNewTrans(s, s', t);
    forall title' | |TopicsTitled(s, title')| == 1
      ensures TopicsTitled(t, title') == TopicsTitled(s, title')
    {
      assert title' != title;
      TopicsTitledEvolves(s, s', {}, title');
      TopicsTitledEvolves(s', t, {}, title');
    }
    assert Kept(s'[k], t[k], false);
    forall x | x in t ensures x in TopicsTitled(t, title) <==> x == k {
      if x in s {
        assert Kept(s[x], t[x], false);
        assert x !in TopicsTitled(s, title);
      }
    }
    assert TopicsTitled(t, title) == {k};
  }

  /** One turn of the tag loop joins what the earlier turns achieved. */
  lemma TagInvStep(s0: map<CardId, Card>, s: map<CardId, Card>, t: map<CardId, Card>,
                   h: CardId, titles: seq<string>, i: nat)
    requires i < |titles| && TagInv(s0, s, h, titles[..i]) && OneTagged(s, t, h, titles[i])
    ensures TagInv(s0, t, h, titles[..i + 1])
  {
    EvolvesTrans(s0, s, t, {}, {});
    NewPointsNewTrans(s0, s, t);
    TagsStep(s0, s, t, h, titles, i);
    AddedTopicsStep(s0, s, t, titles, i);
    NewTopicsStep(s0, s, t, h, titles[i]);
  }

  /** One turn of the tag loop: the head is tagged for one more title, using its unique topic where there is one. */
  lemma TagsStep(s0: map<CardId, Card>, s: map<CardId, Card>, t: map<CardId, Card>,
                 h: CardId, titles: seq<string>, i: nat)
    requires i < |titles| && TagInv(s0, s, h, titles[..i]) && OneTagged(s, t, h, titles[i])
    ensures TaggedWith(t, h, titles[..i + 1]) && UniqueTopicsUsed(s0, t, h, titles[..i + 1])
  {
    TaggedStable(s, t, {}, h, titles[..i]);
    PrefixStep(titles, i);
    assert Kept(s[h], t[h], false);
  }

  /** One more title handled: the prefix grows by that title. */
  lemma PrefixStep(titles: seq<string>, i: nat)
    requires i < |titles|
    ensures titles[..i + 1] == titles[..i] + [titles[i]]
  {
  }

  /** The topic cards one more turn adds join those the earlier turns added. */
  lemma AddedTopicsStep(s0: map<CardId, Card>, s: map<CardId, Card>, t: map<CardId, Card>,
                        titles: seq<string>, i: nat)
    requires i < |titles| && Evolves(s, t, {})
    requires AddedTopics(s0, s, titles[..i]) && AddedTopics(s, t, [titles[i]])
    ensures AddedTopics(s0, t, titles[..i + 1])
  {
    forall k | k in t && k !in s0 ensures t[k].cardType == Topic && t[k].title in titles[..i + 1] {
      if k in s {
        assert Kept(s[k], t[k], false);
        assert t[k].title in titles[..i];
      } else {
        assert t[k].title == titles[i];
      }
    }
  }

  /** One more turn of the tag loop adds at most the one topic its title lacked. */
  lemma NewTopicsStep(s0: map<CardId, Card>, s: map<CardId, Card>, t: map<CardId, Card>, h: CardId, title: string)
    requires NewTopicsSingle(s0, s) && OneTagged(s, t, h, title)
    ensures NewTopicsSingle(s0, t)
  {
    forall x | TopicsTitled(s0, x) == {} ensures |TopicsTitled(t, x)| <= 1 {
      if TopicsTitled(s, x) == {} && x != title {
        TopicsTitledEvolves(s, t, {}, x);
      }
    }
  }

  /** `get_or_create` a topic card titled `title` and add it to the tags of `h`. */
  method TagOne(store: Store, h: CardId, title: string, author: UserId) returns (r: Outcome<Error>)
    requires store.Valid() && h in store.cards && author in store.users
    modifies store
    ensures store.Valid()
    ensures store.users == old(store.users) && store.nextUser == old(store.nextUser)
    ensures old(store.nextCard) <= store.nextCard
    ensures r.Pass? ==> OneTagged(old(store.cards), store.cards, h, title)
    ensures r.Fail? ==> r.error == MultipleTopics(title) && store.cards == old(store.cards)
    ensures r.Fail? <==> |TopicsTitled(old(store.cards), title)| > 1
  {
    ghost var s := store.cards;
    ghost var n := store.nextCard;
    var got := store.GetOrCreateTopic(title, author);
    if got.Failure? {
      return Fail(got.error);
    }
    store.AddTag(h, got.value);
    if TopicsTitled(s, title) == {} {
      TagCreated(s, h, n, NewCard(store.uuidFor(n), DefaultFields.(cardType := Topic, title := title), Some(author), None),
                 title);
    } else {
      TagFound(s, h, got.value, title);
    }
    r := Pass;
  }

  /** The tag loop: `get_or_create` a topic card per title and add it to the card's tags. */
  method AttachTags(store: Store, h: CardId, titles: seq<string>, author: UserId) returns (r: Outcome<Error>)
    requires store.Valid() && h in store.cards && author in store.users
    modifies store
    ensures store.Valid() && h in store.cards
    ensures store.users == old(store.users) && store.nextUser == old(store.nextUser)
    ensures old(store.nextCard) <= store.nextCard
    ensures Evolves(old(store.cards), store.cards, {}) && NewPointsNew(old(store.cards), store.cards)
    ensures r.Pass? ==> TagInv(old(store.cards), store.cards, h, titles)
  {
    var i := 0;
    TagInvStart(store.cards, h);
    while i < |titles|
      invariant 0 <= i <= |titles|
      invariant store.Valid()
      invariant store.users == old(store.users) && store.nextUser == old(store.nextUser)
      invariant old(store.nextCard) <= store.nextCard
      invariant TagInv(old(store.cards), store.cards, h, titles[..i])
    {
      ghost var s := store.cards;
      r := TagOne(store, h, titles[i], author);
      if r.Fail? {
        return;
      }
      TagInvStep(old(store.cards), s, store.cards, h, titles, i);
      i := i + 1;
    }
    assert titles[..i] == titles;
    r := Pass;
  }

  // ---------------------------------------------------------------- the head card

  /** The row `create_card` leaves for its head before the tag loop: created, then given its demo image when asked. */
  function HeadCard(uuid: string, data: CardSpec, w: Written, parent: Option<CardId>, author: UserId): (c: Card)
    ensures HeadMatches(c, data, w, parent)
    ensures c.uuid == uuid && c.author == Some(author) && c.next == None && c.tags == {}
  {
    var c := NewCard(uuid, Effective(data, w), Some(author), parent);
    if data.generateImage then ImageSaved(c, DemoImageName(uuid)) else c
  }

  /** `ZettleCard.objects.create(...)`, then `card.image.save(...)` when the spec asks for a demo image. */
  method InsertHead(store: Store, data: CardSpec, w: Written, parent: Option<CardId>, author: UserId)
    returns (r: Result<CardId, Error>)
    requires store.Valid() && RefersInto(store.cards, parent) && author in store.users
    modifies store
    ensures store.Valid()
    ensures store.users == old(store.users) && store.nextUser == old(store.nextUser)
    ensures r.Success? ==>
      && r.value == old(store.nextCard) && store.nextCard == old(store.nextCard) + 1
      && store.cards == old(store.cards)[r.value := HeadCard(store.uuidFor(r.value), data, w, parent, author)]
    ensures r.Failure? ==>
      && r.error == BrokenReference && !RefersInto(old(store.cards), Effective(data, w).replyTo)
      && store.cards == old(store.cards) && store.nextCard == old(store.nextCard)
  {
    r := store.Create(Effective(data, w), Some(author), parent);
    if r.Success? && data.generateImage {
      ghost var created := store.cards[r.value];
      var uuid := store.cards[r.value].uuid;
      store.AttachImage(r.value, DemoImageName(uuid));
      ImageStored(old(store.cards), r.value, created, DemoImageName(uuid));
    }
  }

  /** Creating a row and then saving an image into it stores the row with its image. */
  lemma ImageStored(s: map<CardId, Card>, id: CardId, c: Card, filename: string)
    ensures s[id := c][id := ImageSaved(s[id := c][id], filename)] == s[id := ImageSaved(c, filename)]
  {
  }

  /**
    Every title that had exactly one topic card in `s0` still has exactly that
    one in `s`, except the title of `h` itself when `h` is a topic card.
  */
  ghost predicate UniqueTopicsKeptBesides(s0: map<CardId, Card>, s: map<CardId, Card>, h: CardId)
    requires h in s
  {
    forall t :: |TopicsTitled(s0, t)| == 1 && !(s[h].cardType == Topic && s[h].title == t) ==>
      TopicsTitled(s, t) == TopicsTitled(s0, t)
  }

  /** The head card as `create_card` leaves it before its children, replies and sequence. */
  ghost predicate HeadDone(s0: map<CardId, Card>, s: map<CardId, Card>, users: map<UserId, User>,
                           data: CardSpec, w: Written, h: CardId, parent: Option<CardId>,
                           au: Option<UserId>, author: UserId)
  {
    && h in s && h !in s0 && author in users && s[h].author == Some(author)
    && HeadMatches(s[h], data, w, parent)
    && AuthorResolved(users, s[h].author, au, AuthorName(data, w))
    && TaggedWith(s, h, data.tagTitles)
    && s[h].next == None && NoPrev(s, h)
    && TagsReused(s0, s[h], data.tagTitles)
    && UniqueTopicsKeptBesides(s0, s, h) && NewTopicsSingle(s0, s)
    && (forall k :: k in s && k !in s0 && k != h ==> s[k].cardType == Topic && s[k].title in data.tagTitles)
  }

  /** Cards were only added (inserting `h`) and tagged from `s0` to `s3`. */
  lemma HeadEvolves(s0: map<CardId, Card>, s3: map<CardId, Card>, h: CardId, c: Card)
    requires h !in s0 && c.next == None
    requires Evolves(s0[h := c], s3, {}) && NewPointsNew(s0[h := c], s3)
    ensures Evolves(s0, s3, {}) && NewPointsNew(s0, s3)
  {
    InsertEvolves(s0, h, c);
    EvolvesTrans(s0, s0[h := c], s3, {}, {});
    NewPointsNewTrans(s0, s0[h := c], s3);
  }

  /** After the tag loop, the head is as HeadDone says. */
  lemma HeadFinished(s0: map<CardId, Card>, s3: map<CardId, Card>, users: map<UserId, User>,
                     data: CardSpec, w: Written, h: CardId, parent: Option<CardId>,
                     au: Option<UserId>, author: UserId, c: Card)
    requires Consistent(s0) && h !in s0 && author in users
    requires c.author == Some(author) && c.next == None && HeadMatches(c, data, w, parent)
    requires AuthorResolved(users, Some(author), au, AuthorName(data, w))
    requires TagInv(s0[h := c], s3, h, data.tagTitles)
    ensures HeadDone(s0, s3, users, data, w, h, parent, au, author)
  {
    var s2 := s0[h := c];
    InsertEvolves(s0, h, c);
    assert Kept(s2[h], s3[h], false);
    forall k | k in s2 ensures s2[k].next != Some(h) {
      if k != h {
        assert s2[k] == s0[k] && RefersInto(s0, s0[k].next);
      }
    }
    NoPrevStable(s2, s3, h);
    forall t | t in data.tagTitles && |TopicsTitled(s0, t)| == 1 && !(s3[h].cardType == Topic && s3[h].title == t)
      ensures TopicsTitled(s0, t) <= s3[h].tags
    {
      TopicsTitledEvolves(s0, s2, {}, t);
    }
    forall t | |TopicsTitled(s0, t)| == 1 && !(s3[h].cardType == Topic && s3[h].title == t)
      ensures TopicsTitled(s3, t) == TopicsTitled(s0, t)
    {
      TopicsTitledEvolves(s0, s2, {}, t);
    }
    HeadTopicsSingle(s0, s3, h, c);
  }

  /**
    Inserting the head and running the tag loop leaves at most one topic per
    title that had none: a head that is itself such a topic is the one the
    loop reuses.
  */
  lemma HeadTopicsSingle(s0: map<CardId, Card>, s3: map<CardId, Card>, h: CardId, c: Card)
    requires h !in s0 && c.next == None
    requires UniqueTopicsKept(s0[h := c], s3) && NewTopicsSingle(s0[h := c], s3)
    ensures NewTopicsSingle(s0, s3)
  {
    var s2 := s0[h := c];
    InsertEvolves(s0, h, c);
    forall x | TopicsTitled(s0, x) == {} ensures |TopicsTitled(s3, x)| <= 1 {
      if c.cardType == Topic && c.title == x {
        forall k | k in s2 ensures k in TopicsTitled(s2, x) <==> k == h {
          if k != h {
            assert k !in TopicsTitled(s0, x);
          }
        }
        assert TopicsTitled(s2, x) == {h};
      } else {
        TopicsTitledEvolves(s0, s2, {}, x);
      }
    }
  }

  /**
    The first half of `create_card`: resolve the author, create the card,
    save its demo image, and run the tag loop.
  */
  method CreateHead(store: Store, data: CardSpec, parent: Option<CardId>, authorUser: Option<UserId>, w: Written)
    returns (r: Result<CardId, Error>, author: UserId)
    requires store.Valid() && RefersInto(store.cards, parent)
    requires authorUser.Some? ==> authorUser.value in store.users
    modifies store
    ensures store.Valid()
    ensures store.users == old(store.users) && store.nextUser == old(store.nextUser)
    ensures old(store.nextCard) <= store.nextCard
    ensures Evolves(old(store.cards), store.cards, {}) && NewPointsNew(old(store.cards), store.cards)
    ensures r.Success? ==> r.value == old(store.nextCard) < store.nextCard
    ensures r.Success? ==> HeadDone(old(store.cards), store.cards, store.users, data, w, r.value, parent, authorUser, author)
    ensures authorUser.None? && (forall u :: u in store.users ==> store.users[u].username != AuthorName(data, w)) ==>
              r == Failure(UserDoesNotExist(AuthorName(data, w)))
  {
    ghost var s0 := store.cards;
    EvolvesRefl(s0);
    author := 0;
    if authorUser.Some? {
      author := authorUser.value;
    } else {
      var found := store.LookupUser(AuthorName(data, w));
      if found.Failure? {
        return Failure(found.error), author;
      }
      author := found.value;
    }
    var created := InsertHead(store, data, w, parent, author);
    if created.Failure? {
      return Failure(created.error), author;
    }
    var h := created.value;
    ghost var c := store.cards[h];
    var tagged := AttachTags(store, h, data.tagTitles, author);
    HeadEvolves(s0, store.cards, h, c);
    if tagged.Fail? {
      return Failure(tagged.error), author;
    }
    HeadFinished(s0, store.cards, store.users, data, w, h, parent, authorUser, author, c);
    r := Success(h);
  }

  // ---------------------------------------------------------------- children and replies

  /**
    The first `|bs|` specs of a children or replies loop are built, as `bs`,
    with ids in [lo, hi), each sub-graph after the one before it.
  */
  ghost predicate BranchDone(s: map<CardId, Card>, users: map<UserId, User>, specs: seq<CardSpec>, w: Written,
                             bs: seq<Built>, parent: Option<CardId>, au: Option<UserId>, lo: nat, hi: nat)
  {
    && |bs| <= |specs|
    && (forall j :: 0 <= j < |bs| ==>
         && Shaped(s, users, specs[j], w, bs[j], parent, au)
         && OwnLink(s, bs[j])
         && lo <= bs[j].id && bs[j].end <= hi)
    && (forall j, k :: 0 <= j < k < |bs| ==> bs[j].end <= bs[k].id)
  }

  /** One turn of the children or replies loop: earlier sub-graphs keep their shape, the new one joins them. */
  lemma BranchStep(s: map<CardId, Card>, t: map<CardId, Card>, users: map<UserId, User>, specs: seq<CardSpec>,
                   w: Written, bs: seq<Built>, b: Built, parent: Option<CardId>, au: Option<UserId>,
                   lo: nat, mid: nat, hi: nat)
    requires |bs| < |specs| && lo <= mid <= hi
    requires BranchDone(s, users, specs, w, bs, parent, au, lo, mid)
    requires Evolves(s, t, {})
    requires Shaped(t, users, specs[|bs|], w, b, parent, au) && OwnLink(t, b) && mid <= b.id && b.end <= hi
    ensures BranchDone(t, users, specs, w, bs + [b], parent, au, lo, hi)
  {
    forall j | 0 <= j < |bs| + 1
      ensures Shaped(t, users, specs[j], w, (bs + [b])[j], parent, au) && OwnLink(t, (bs + [b])[j])
      ensures lo <= (bs + [b])[j].id && (bs + [b])[j].end <= hi
    {
      if j < |bs| {
        ShapedStable(s, t, {}, users, specs[j], w, bs[j], parent, au);
        LinkStable(s, t, {}, bs[j]);
      }
    }
  }

  /**
    The children loop (`create_card(child, parent=card, author_user=author)`)
    or the replies loop (`reply["reply_to"] = card; create_card(reply)`):
    `w`, `parent` and `au` are what the loop passes to every call.
  */
  method BuildBranch(store: Store, data: CardSpec, specs: seq<CardSpec>, w: Written,
                     parent: Option<CardId>, au: Option<UserId>)
    returns (r: Outcome<Error>, ghost bs: seq<Built>)
    requires specs == data.children || specs == data.replies
    requires store.Valid() && RefersInto(store.cards, parent)
    requires au.Some? ==> au.value in store.users
    modifies store
    decreases data, 0
    ensures store.Valid()
    ensures store.users == old(store.users) && store.nextUser == old(store.nextUser)
    ensures old(store.nextCard) <= store.nextCard
    ensures Evolves(old(store.cards), store.cards, {}) && NewPointsNew(old(store.cards), store.cards)
    ensures r.Pass? ==> |bs| == |specs|
    ensures r.Pass? ==> BranchDone(store.cards, store.users, specs, w, bs, parent, au, old(store.nextCard), store.nextCard)
  {
    bs := [];
    var i := 0;
    while i < |specs|
      invariant 0 <= i <= |specs| && |bs| == i
      invariant store.Valid() && RefersInto(store.cards, parent)
      invariant store.users == old(store.users) && store.nextUser == old(store.nextUser)
      invariant old(store.nextCard) <= store.nextCard
      invariant Evolves(old(store.cards), store.cards, {}) && NewPointsNew(old(store.cards), store.cards)
      invariant BranchDone(store.cards, store.users, specs, w, bs, parent, au, old(store.nextCard), store.nextCard)
    {
      ghost var s := store.cards;
      ghost var mid := store.nextCard;
      assert specs[i] in data.children || specs[i] in data.replies;
      var res, b := CreateCard(store, specs[i], parent, au, w);
      EvolvesTrans(old(store.cards), s, store.cards, {}, {});
      NewPointsNewTrans(old(store.cards), s, store.cards);
      if res.Failure? {
        return Fail(res.error), bs;
      }
      BranchStep(s, store.cards, store.users, specs, w, bs, b, parent, au, old(store.nextCard), mid, store.nextCard);
      bs := bs + [b];
      i := i + 1;
    }
    r := Pass;
  }

  // ---------------------------------------------------------------- the sequence

  /** The first `|items|` sequence items are built, as `items`. */
  ghost predicate ItemsShaped(s: map<CardId, Card>, users: map<UserId, User>, specs: seq<CardSpec>, name: string,
                              items: seq<Built>)
  {
    && |items| <= |specs|
    && forall j :: 0 <= j < |items| ==> Shaped(s, users, specs[j], ItemWrites(name), items[j], None, None)
  }

  /**
    The items have ids in [lo, hi) and come one after another, each is the
    `next` of the one before, and the last keeps its own link.
  */
  ghost predicate ItemsLinked(s: map<CardId, Card>, items: seq<Built>, lo: nat, hi: nat)
  {
    && (forall j :: 0 <= j < |items| ==> lo <= items[j].id < items[j].end <= hi)
    && (forall j, k :: 0 <= j < k < |items| ==> items[j].end <= items[k].id)
    && (forall j :: 0 <= j < |items| - 1 ==> items[j].id in s && s[items[j].id].next == Some(items[j + 1].id))
    && (|items| > 0 ==> OwnLink(s, items[|items| - 1]))
  }

  /** Finished items keep their shapes while cards are added and `m`, outside every item's range, is relinked. */
  lemma ItemsShapedStable(s: map<CardId, Card>, t: map<CardId, Card>, m: CardId,
                          users: map<UserId, User>, specs: seq<CardSpec>, name: string, items: seq<Built>)
    requires ItemsShaped(s, users, specs, name, items) && Evolves(s, t, {m})
    requires forall j :: 0 <= j < |items| ==> !(items[j].id < m < items[j].end)
    ensures ItemsShaped(t, users, specs, name, items)
  {
    forall j | 0 <= j < |items|
      ensures Shaped(t, users, specs[j], ItemWrites(name), items[j], None, None)
    {
      ShapedStable(s, t, {m}, users, specs[j], ItemWrites(name), items[j], None, None);
    }
  }

  /** The next item joins the finished ones. */
  lemma ItemsShapedAppend(s: map<CardId, Card>, users: map<UserId, User>, specs: seq<CardSpec>, name: string,
                          items: seq<Built>, b: Built)
    requires ItemsShaped(s, users, specs, name, items) && |items| < |specs|
    requires Shaped(s, users, specs[|items|], ItemWrites(name), b, None, None)
    ensures ItemsShaped(s, users, specs, name, items + [b])
  {
    forall j | 0 <= j < |items| + 1 ensures Shaped(s, users, specs[j], ItemWrites(name), (items + [b])[j], None, None) {
      if j < |items| {
        assert (items + [b])[j] == items[j];
      }
    }
  }

  /** `prev`, the last item or the head, lies inside no item's id range. */
  lemma PrevOutside(s: map<CardId, Card>, items: seq<Built>, prev: CardId, h: CardId, lo: nat, hi: nat)
    requires ItemsLinked(s, items, lo, hi) && h < lo
    requires prev == (if items == [] then h else items[|items| - 1].id)
    ensures forall j :: 0 <= j < |items| ==> !(items[j].id < prev < items[j].end)
  {
    forall j | 0 <= j < |items| ensures !(items[j].id < prev < items[j].end) {
      if j < |items| - 1 {
        assert items[j].end <= items[|items| - 1].id;
      }
    }
  }

  /** One turn of the sequence loop, for the shapes: item `b` was created (`s` to `s'`), then `prev` relinked to it. */
  lemma ItemsShapedStep(s: map<CardId, Card>, s': map<CardId, Card>, t: map<CardId, Card>,
                        users: map<UserId, User>, specs: seq<CardSpec>, name: string, h: CardId,
                        items: seq<Built>, prev: CardId, b: Built, lo: nat, mid: nat)
    requires ItemsShaped(s, users, specs, name, items) && ItemsLinked(s, items, lo, mid) && |items| < |specs|
    requires prev == (if items == [] then h else items[|items| - 1].id) && h < lo <= mid <= b.id
    requires Evolves(s, s', {}) && prev in s'
    requires Shaped(s', users, specs[|items|], ItemWrites(name), b, None, None)
    requires t == s'[prev := s'[prev].(next := Some(b.id))]
    ensures ItemsShaped(t, users, specs, name, items + [b])
  {
    RelinkEvolves(s', prev, Some(b.id));
    EvolvesTrans(s, s', t, {}, {prev});
    PrevOutside(s, items, prev, h, lo, mid);
    ItemsShapedStable(s, t, prev, users, specs, name, items);
    ShapedStable(s', t, {prev}, users, specs[|items|], ItemWrites(name), b, None, None);
    ItemsShapedAppend(t, users, specs, name, items, b);
  }

  /** One turn of the sequence loop, for the links: `prev`, the last item or the head, now points at `b`. */
  lemma ItemsLinkedStep(s: map<CardId, Card>, s': map<CardId, Card>, t: map<CardId, Card>, items: seq<Built>, b: Built,
                        h: CardId, prev: CardId, lo: nat, mid: nat, hi: nat)
    requires h < lo <= mid && ItemsLinked(s, items, lo, mid)
    requires prev == (if items == [] then h else items[|items| - 1].id)
    requires Evolves(s, s', {}) && OwnLink(s', b) && mid <= b.id < b.end <= hi
    requires prev in s' && t == s'[prev := s'[prev].(next := Some(b.id))]
    ensures ItemsLinked(t, items + [b], lo, hi)
  {
    var all := items + [b];
    var n := |items|;
    if n > 0 {
      assert items[n - 1].id < items[n - 1].end <= mid;
    }
    assert b.id != prev;
    forall j | 0 <= j < n
      ensures all[j].id in t && t[all[j].id].next == Some(all[j + 1].id)
    {
      if j < n - 1 {
        assert items[j].end <= items[n - 1].id;
        assert Kept(s[items[j].id], s'[items[j].id], false);
      }
    }
    forall j, k | 0 <= j < k < n + 1 ensures all[j].end <= all[k].id {
      if k < n {
        assert all[j] == items[j] && all[k] == items[k];
      }
    }
  }

  /** The frame of the sequence loop: cards were added, tagged, and only the head relinked, to a new card; the head has no predecessor. */
  ghost predicate SeqFrame(s0: map<CardId, Card>, s: map<CardId, Card>, h: CardId, lo: nat)
  {
    && h in s && Evolves(s0, s, {h}) && NewPointsNew(s0, s) && NoPrev(s, h)
    && (s[h].next == None || lo <= s[h].next.value)
  }

  lemma SeqFrameStart(s: map<CardId, Card>, h: CardId, lo: nat)
    requires h in s && s[h].next == None && NoPrev(s, h)
    ensures SeqFrame(s, s, h, lo)
  {
    forall k | k in s ensures Kept(s[k], s[k], k in {h}) {
    }
  }

  lemma SeqFrameCreated(s0: map<CardId, Card>, s: map<CardId, Card>, s': map<CardId, Card>, h: CardId, lo: nat)
    requires SeqFrame(s0, s, h, lo) && Evolves(s, s', {}) && NewPointsNew(s, s')
    ensures SeqFrame(s0, s', h, lo)
  {
    EvolvesTrans(s0, s, s', {h}, {});
    NewPointsNewTrans(s0, s, s');
    NoPrevStable(s, s', h);
    assert Kept(s[h], s'[h], false);
  }

  lemma SeqFrameRelinked(s0: map<CardId, Card>, s': map<CardId, Card>, t: map<CardId, Card>,
                         h: CardId, prev: CardId, x: CardId, lo: nat)
    requires SeqFrame(s0, s', h, lo) && prev in s' && t == s'[prev := s'[prev].(next := Some(x))]
    requires (forall k :: k in s0 ==> k < lo) && h < lo <= x && (prev == h || lo <= prev)
    ensures SeqFrame(s0, t, h, lo)
  {
    RelinkEvolves(s', prev, Some(x));
    EvolvesTrans(s0, s', t, {h}, {prev});
    EvolvesNarrow(s0, t, {h} + {prev}, {h});
    forall k | k in t ensures t[k].next != Some(h) {
      if k != prev {
        assert t[k] == s'[k];
      }
    }
  }

  /** What the sequence loop keeps besides the items' shapes: the frame, the links, and where `prev` is. */
  ghost predicate SeqInv(s0: map<CardId, Card>, s: map<CardId, Card>, h: CardId,
                         items: seq<Built>, prev: CardId, lo: nat, hi: nat)
  {
    && h < lo <= hi
    && SeqFrame(s0, s, h, lo)
    && prev == (if items == [] then h else items[|items| - 1].id) && prev in s
    && s[h].next == (if items == [] then None else Some(items[0].id))
    && ItemsLinked(s, items, lo, hi)
  }

  /**
    One turn of the sequence loop, for SeqInv: item `b` was created (`s` to
    `s'`), then `prev.next = item_card` (`s'` to `t`).
  */
  lemma SeqStep(s0: map<CardId, Card>, s: map<CardId, Card>, s': map<CardId, Card>, t: map<CardId, Card>,
                h: CardId, items: seq<Built>, prev: CardId, b: Built, lo: nat, mid: nat, hi: nat)
    requires SeqInv(s0, s, h, items, prev, lo, mid) && (forall k :: k in s0 ==> k < lo)
    requires Evolves(s, s', {}) && NewPointsNew(s, s') && OwnLink(s', b)
    requires b.id == mid < b.end == hi
    requires t == s'[prev := s'[prev].(next := Some(b.id))]
    ensures SeqInv(s0, t, h, items + [b], b.id, lo, hi)
  {
    SeqFrameCreated(s0, s, s', h, lo);
    if items != [] {
      assert lo <= items[|items| - 1].id;
      assert Kept(s[h], s'[h], false);
    }
    SeqFrameRelinked(s0, s', t, h, prev, b.id, lo);
    ItemsLinkedStep(s, s', t, items, b, h, prev, lo, mid, hi);
  }

  /**
    One turn of the sequence loop: `create_card(seq_data)` with type "text"
    and the head's author written in, then `prev_card.next = next_card;
    prev_card.save()`.  `s0` and `lo` are the cards and the next free id
    before the loop.
  */
  method AppendItem(store: Store, data: CardSpec, i: nat, name: string, prev: CardId,
                    ghost s0: map<CardId, Card>, ghost lo: nat, ghost h: CardId, ghost items: seq<Built>)
    returns (r: Result<CardId, Error>, ghost b: Built)
    requires store.Valid() && i == |items| < |data.sequence|
    requires forall k :: k in s0 ==> k < lo
    requires SeqInv(s0, store.cards, h, items, prev, lo, store.nextCard)
    requires ItemsShaped(store.cards, store.users, data.sequence, name, items)
    modifies store
    decreases data, 0
    ensures store.Valid()
    ensures store.users == old(store.users) && store.nextUser == old(store.nextUser)
    ensures old(store.nextCard) <= store.nextCard
    ensures r.Success? ==> r.value == b.id && SeqInv(s0, store.cards, h, items + [b], b.id, lo, store.nextCard)
    ensures r.Success? ==> ItemsShaped(store.cards, store.users, data.sequence, name, items + [b])
    ensures r.Failure? ==> SeqFrame(s0, store.cards, h, lo)
  {
    ghost var s := store.cards;
    r, b := CreateCard(store, data.sequence[i], None, None, ItemWrites(name));
    if r.Failure? {
      SeqFrameCreated(s0, s, store.cards, h, lo);
      return;
    }
    ghost var s' := store.cards;
    var ok := store.SetNext(prev, r.value);
    assert ok;
    SeqStep(s0, s, s', store.cards, h, items, prev, b, lo, old(store.nextCard), store.nextCard);
    ItemsShapedStep(s, s', store.cards, store.users, data.sequence, name, h, items, prev, b, lo, old(store.nextCard));
  }

  /**
    The sequence loop: each item is created as a text card by the head's
    author and becomes the `next` of the card before it, starting at the head.
  */
  method BuildSequence(store: Store, data: CardSpec, h: CardId, author: UserId)
    returns (r: Outcome<Error>, ghost items: seq<Built>)
    requires store.Valid() && h in store.cards && author in store.users
    requires store.cards[h].next == None && NoPrev(store.cards, h)
    modifies store
    decreases data, 1
    ensures store.Valid()
    ensures store.users == old(store.users) && store.nextUser == old(store.nextUser)
    ensures old(store.nextCard) <= store.nextCard
    ensures r.Fail? ==> SeqFrame(old(store.cards), store.cards, h, old(store.nextCard))
    ensures r.Pass? ==> |items| == |data.sequence|
    ensures r.Pass? ==> ItemsShaped(store.cards, store.users, data.sequence, store.users[author].username, items)
    ensures r.Pass? ==> SeqInv(old(store.cards), store.cards, h, items, if items == [] then h else items[|items| - 1].id,
                               old(store.nextCard), store.nextCard)
  {
    items := [];
    var name := store.users[author].username;
    var prev := h;
    SeqFrameStart(store.cards, h, store.nextCard);
    for i := 0 to |data.sequence|
      invariant |items| == i && store.Valid()
      invariant store.users == old(store.users) && store.nextUser == old(store.nextUser)
      invariant SeqInv(old(store.cards), store.cards, h, items, prev, old(store.nextCard), store.nextCard)
      invariant ItemsShaped(store.cards, store.users, data.sequence, name, items)
    {
      var res, b := AppendItem(store, data, i, name, prev, old(store.cards), old(store.nextCard), h, items);
      if res.Failure? {
        return Fail(res.error), items;
      }
      items := items + [b];
      prev := res.value;
    }
    r := Pass;
  }

  // ---------------------------------------------------------------- the whole card

  /** What the children, replies and sequence loops of `create_card` leave, for head `h` and ids in [lo, hi). */
  ghost predicate RestDone(s3: map<CardId, Card>, s: map<CardId, Card>, users: map<UserId, User>, data: CardSpec,
                           h: CardId, author: UserId, kb: seq<Built>, rb: seq<Built>, ib: seq<Built>, lo: nat, hi: nat)
  {
    && SeqFrame(s3, s, h, lo) && author in users
    && |kb| == |data.children| && BranchDone(s, users, data.children, Untouched, kb, Some(h), Some(author), lo, hi)
    && |rb| == |data.replies| && BranchDone(s, users, data.replies, Written(Some(h), None, None), rb, None, None, lo, hi)
    && |ib| == |data.sequence| && ItemsShaped(s, users, data.sequence, users[author].username, ib)
    && ItemsLinked(s, ib, lo, hi)
    && s[h].next == (if ib == [] then None else Some(ib[0].id))
    && Apart(kb, rb) && Apart(kb, ib) && Apart(rb, ib)
  }

  /** A finished branch keeps its shape, own links and id range while the head is relinked. */
  lemma BranchKept(s: map<CardId, Card>, t: map<CardId, Card>, users: map<UserId, User>, specs: seq<CardSpec>,
                   w: Written, bs: seq<Built>, parent: Option<CardId>, au: Option<UserId>, h: CardId,
                   lo: nat, mid: nat, hi: nat)
    requires BranchDone(s, users, specs, w, bs, parent, au, lo, mid) && mid <= hi && Evolves(s, t, {h}) && h < lo
    ensures BranchDone(t, users, specs, w, bs, parent, au, lo, hi)
  {
    forall i | 0 <= i < |bs|
      ensures Shaped(t, users, specs[i], w, bs[i], parent, au) && OwnLink(t, bs[i])
    {
      ShapedStable(s, t, {h}, users, specs[i], w, bs[i], parent, au);
      LinkStable(s, t, {h}, bs[i]);
    }
  }

  /** Trees that end by `mid` are apart from trees that begin at or after it. */
  lemma ApartAt(xs: seq<Built>, ys: seq<Built>, mid: nat)
    requires forall i :: 0 <= i < |xs| ==> xs[i].end <= mid
    requires forall j :: 0 <= j < |ys| ==> mid <= ys[j].id
    ensures Apart(xs, ys)
  {
  }

  /** The frame of the three loops: from `s3` through `s5` cards were added and tagged, then the sequence loop ran. */
  lemma RestFrame(s3: map<CardId, Card>, s5: map<CardId, Card>, s6: map<CardId, Card>, h: CardId, lo: nat, mid: nat)
    requires h in s3 && s3[h].next == None && NoPrev(s3, h) && lo <= mid
    requires Evolves(s3, s5, {}) && NewPointsNew(s3, s5) && SeqFrame(s5, s6, h, mid)
    ensures SeqFrame(s3, s6, h, lo)
  {
    EvolvesTrans(s3, s5, s6, {}, {h});
    forall k | k in s6 && k !in s3 && s6[k].next.Some? ensures s6[k].next.value !in s3 {
      if k in s5 {
        assert Kept(s5[k], s6[k], false);
      }
    }
  }

  /** The three loops together leave RestDone. */
  lemma RestAssemble(s3: map<CardId, Card>, s4: map<CardId, Card>, s5: map<CardId, Card>, s6: map<CardId, Card>,
                     users: map<UserId, User>, data: CardSpec, h: CardId, author: UserId,
                     kb: seq<Built>, rb: seq<Built>, ib: seq<Built>, n3: nat, n4: nat, n5: nat, n6: nat)
    requires h < n3 <= n4 <= n5 <= n6 && author in users
    requires h in s3 && s3[h].next == None && NoPrev(s3, h)
    requires Evolves(s3, s4, {}) && Evolves(s4, s5, {}) && Evolves(s3, s5, {}) && NewPointsNew(s3, s5)
    requires |kb| == |data.children| && BranchDone(s4, users, data.children, Untouched, kb, Some(h), Some(author), n3, n4)
    requires |rb| == |data.replies| && BranchDone(s5, users, data.replies, Written(Some(h), None, None), rb, None, None, n4, n5)
    requires |ib| == |data.sequence| && SeqFrame(s5, s6, h, n5)
    requires ItemsShaped(s6, users, data.sequence, users[author].username, ib)
    requires SeqInv(s5, s6, h, ib, if ib == [] then h else ib[|ib| - 1].id, n5, n6)
    ensures RestDone(s3, s6, users, data, h, author, kb, rb, ib, n3, n6)
  {
    ApartAt(kb, rb, n4);
    ApartAt(kb, ib, n4);
    ApartAt(rb, ib, n5);
    RestFrame(s3, s5, s6, h, n3, n5);
    EvolvesTrans(s4, s5, s6, {}, {h});
    BranchKept(s4, s6, users, data.children, Untouched, kb, Some(h), Some(author), h, n3, n4, n6);
    BranchKept(s5, s6, users, data.replies, Written(Some(h), None, None), rb, None, None, h, n4, n5, n6);
  }

  /**
    The second half of `create_card`: the children, replies and sequence
    loops for head `h`, whose author is `author`.
  */
  method BuildRest(store: Store, data: CardSpec, h: CardId, author: UserId)
    returns (r: Outcome<Error>, ghost kb: seq<Built>, ghost rb: seq<Built>, ghost ib: seq<Built>)
    requires store.Valid() && h in store.cards && author in store.users && h < store.nextCard
    requires store.cards[h].next == None && NoPrev(store.cards, h)
    modifies store
    decreases data, 2
    ensures store.Valid()
    ensures store.users == old(store.users) && store.nextUser == old(store.nextUser)
    ensures old(store.nextCard) <= store.nextCard
    ensures SeqFrame(old(store.cards), store.cards, h, old(store.nextCard))
    ensures r.Pass? ==> RestDone(old(store.cards), store.cards, store.users, data, h, author, kb, rb, ib,
                                 old(store.nextCard), store.nextCard)
  {
    rb, ib := [], [];
    ghost var s3 := store.cards;
    ghost var n3 := store.nextCard;
    SeqFrameStart(s3, h, n3);
    var kids;
    kids, kb := BuildBranch(store, data, data.children, Untouched, Some(h), Some(author));
    SeqFrameCreated(s3, s3, store.cards, h, n3);
    if kids.Fail? {
      return Fail(kids.error), kb, rb, ib;
    }
    ghost var s4 := store.cards;
    ghost var n4 := store.nextCard;
    var reps;
    reps, rb := BuildBranch(store, data, data.replies, Written(Some(h), None, None), None, None);
    SeqFrameCreated(s3, s4, store.cards, h, n3);
    if reps.Fail? {
      return Fail(reps.error), kb, rb, ib;
    }
    ghost var s5 := store.cards;
    ghost var n5 := store.nextCard;
    EvolvesTrans(s3, s4, s5, {}, {});
    NewPointsNewTrans(s3, s4, s5);
    assert Kept(s3[h], s5[h], false);
    var items;
    items, ib := BuildSequence(store, data, h, author);
    RestFrame(s3, s5, store.cards, h, n3, n5);
    if items.Fail? {
      return Fail(items.error), kb, rb, ib;
    }
    RestAssemble(s3, s4, s5, store.cards, store.users, data, h, author, kb, rb, ib, n3, n4, n5, store.nextCard);
    r := Pass;
  }

  /** Shaped, from its parts as the build loops state them. */
  lemma ShapedIntro(s: map<CardId, Card>, users: map<UserId, User>, data: CardSpec, w: Written, b: Built,
                    parent: Option<CardId>, au: Option<UserId>, author: UserId, lo: nat)
    requires b.id in s && b.id < lo <= b.end && author in users && s[b.id].author == Some(author)
    requires HeadMatches(s[b.id], data, w, parent)
    requires AuthorResolved(users, s[b.id].author, au, AuthorName(data, w))
    requires TaggedWith(s, b.id, data.tagTitles)
    requires |b.children| == |data.children|
    requires BranchDone(s, users, data.children, Untouched, b.children, Some(b.id), Some(author), lo, b.end)
    requires |b.replies| == |data.replies|
    requires BranchDone(s, users, data.replies, Written(Some(b.id), None, None), b.replies, None, None, lo, b.end)
    requires |b.sequence| == |data.sequence|
    requires ItemsShaped(s, users, data.sequence, users[author].username, b.sequence)
    requires ItemsLinked(s, b.sequence, lo, b.end)
    requires Apart(b.children, b.replies) && Apart(b.children, b.sequence) && Apart(b.replies, b.sequence)
    ensures Shaped(s, users, data, w, b, parent, au)
  {
    assert Nested(b) by {
      assert forall i :: 0 <= i < |b.sequence| ==> b.sequence[i].id < b.sequence[i].end;
    }
  }

  /** The card built by `create_card` is Shaped, given what its head and the three loops left. */
  lemma Assemble(s0: map<CardId, Card>, s3: map<CardId, Card>, s6: map<CardId, Card>, users: map<UserId, User>,
                 data: CardSpec, w: Written, parent: Option<CardId>, au: Option<UserId>, author: UserId, h: CardId,
                 kb: seq<Built>, rb: seq<Built>, ib: seq<Built>, lo: nat, hi: nat)
    requires h < lo <= hi
    requires HeadDone(s0, s3, users, data, w, h, parent, au, author)
    requires RestDone(s3, s6, users, data, h, author, kb, rb, ib, lo, hi)
    ensures Shaped(s6, users, data, w, Built(h, hi, kb, rb, ib), parent, au)
    ensures OwnLink(s6, Built(h, hi, kb, rb, ib)) && NoPrev(s6, h)
    ensures TagsReused(s0, s6[h], data.tagTitles)
  {
    HeadStable(s3, s6, {h}, users, data, w, h, parent, au);
    assert Kept(s3[h], s6[h], true);
    ShapedIntro(s6, users, data, w, Built(h, hi, kb, rb, ib), parent, au, author, lo);
  }

  /** Adding the head and its sub-graph only added and tagged the cards that were there before. */
  lemma CardEvolves(s0: map<CardId, Card>, s3: map<CardId, Card>, s6: map<CardId, Card>, h: CardId, lo: nat)
    requires (forall k :: k in s0 ==> k < lo) && h !in s0 && h in s3
    requires Evolves(s0, s3, {}) && NewPointsNew(s0, s3) && SeqFrame(s3, s6, h, lo)
    ensures Evolves(s0, s6, {}) && NewPointsNew(s0, s6)
  {
    EvolvesTrans(s0, s3, s6, {}, {h});
    EvolvesNarrow(s0, s6, {h}, {});
    forall k | k in s6 && k !in s0 && s6[k].next.Some? ensures s6[k].next.value !in s0 {
      if k in s3 && k != h {
        assert Kept(s3[k], s6[k], false);
      }
    }
  }

  /** The head's tags only grow after the tag loop, so the reused topics stay among them. */
  lemma TagsReusedKept(s0: map<CardId, Card>, a: Card, b: Card, titles: seq<string>)
    requires TagsReused(s0, a, titles) && Kept(a, b, true)
    ensures TagsReused(s0, b, titles)
  {
  }

  /**
    `create_card(data, parent, author_user)` with `w` the keys the caller
    wrote into `data`.  On success the store holds the card graph the spec
    describes (Shaped), the returned id is its head, and the head has no
    predecessor yet; on every outcome the cards that existed before were
    only tagged, and the store stays consistent.
  */
  method CreateCard(store: Store, data: CardSpec, parent: Option<CardId>, authorUser: Option<UserId>, w: Written)
    returns (r: Result<CardId, Error>, ghost b: Built)
    requires store.Valid() && RefersInto(store.cards, parent)
    requires authorUser.Some? ==> authorUser.value in store.users
    modifies store
    decreases data, 3
    ensures store.Valid()
    ensures store.users == old(store.users) && store.nextUser == old(store.nextUser)
    ensures old(store.nextCard) <= store.nextCard
    ensures Evolves(old(store.cards), store.cards, {}) && NewPointsNew(old(store.cards), store.cards)
    ensures r.Success? ==> r.value == b.id == old(store.nextCard) && b.end == store.nextCard
    ensures r.Success? ==> Shaped(store.cards, store.users, data, w, b, parent, authorUser)
    ensures r.Success? ==> OwnLink(store.cards, b) && NoPrev(store.cards, b.id)
    ensures r.Success? ==> TagsReused(old(store.cards), store.cards[b.id], data.tagTitles)
    ensures authorUser.None? && (forall u :: u in store.users ==> store.users[u].username != AuthorName(data, w)) ==>
              r == Failure(UserDoesNotExist(AuthorName(data, w)))
  {
    b := Built(0, 0, [], [], []);
    ghost var s0 := store.cards;
    var head, author := CreateHead(store, data, parent, authorUser, w);
    if head.Failure? {
      return Failure(head.error), b;
    }
    var h := head.value;
    ghost var s3 := store.cards;
    ghost var n3 := store.nextCard;
    var rest, kb, rb, ib := BuildRest(store, data, h, author);
    CardEvolves(s0, s3, store.cards, h, n3);
    if rest.Fail? {
      return Failure(rest.error), b;
    }
    b := Built(h, store.nextCard, kb, rb, ib);
    Assemble(s0, s3, store.cards, store.users, data, w, parent, authorUser, author, h, kb, rb, ib, n3, store.nextCard);
    r := Success(h);
  }
}
