/**
  The shape of the card graph the demo command builds from one nested spec
  (backend/core/management/commands/create_demo_data.py, `create_card`),
  stated over a store of cards, and the lemmas that keep that shape true
  while later cards are created, tagged and linked.
*/
module DemoShape {
  import opened Wrappers
  import opened PathLib
  import opened ZettleModels
  import opened ZettleStore

  /**
    One entry of the demo data.  `fields` are the keys that become card
    columns; `author` is the username under the "author" key; the rest are
    the control keys that `create_card` pops before creating the card.
  */
  datatype CardSpec = CardSpec(
    fields: Fields,
    author: Option<string>,
    children: seq<CardSpec>,
    replies: seq<CardSpec>,
    sequence: seq<CardSpec>,
    tagTitles: seq<string>,
    generateImage: bool)

  /** The keys a caller stores into a nested spec before passing it down: reply_to, card_type, author. */
  datatype Written = Written(replyTo: Option<CardId>, cardType: Option<CardType>, author: Option<string>)

  const Untouched := Written(None, None, None)

  /** What the sequence loop writes into each item: type "text" and the head card's author. */
  function ItemWrites(authorName: string): Written
  {
    Written(None, Some(Text), Some(authorName))
  }

  /** The card columns of a spec once the caller's writes are applied. */
  function Effective(spec: CardSpec, w: Written): (f: Fields)
    ensures w.replyTo.Some? ==> f.replyTo == w.replyTo
    ensures w.replyTo.None? ==> f.replyTo == spec.fields.replyTo
    ensures f.cardType == w.cardType.GetOr(spec.fields.cardType)
    ensures f.(replyTo := spec.fields.replyTo, cardType := spec.fields.cardType) == spec.fields
  {
    spec.fields.(replyTo := if w.replyTo.Some? then w.replyTo else spec.fields.replyTo,
                 cardType := w.cardType.GetOr(spec.fields.cardType))
  }

  /** `data.get("author", "superadmin")`, after the caller's writes. */
  function AuthorName(spec: CardSpec, w: Written): (name: string)
    ensures w.author.Some? ==> name == w.author.value
    ensures w.author.None? && spec.author.Some? ==> name == spec.author.value
    ensures w.author.None? && spec.author.None? ==> name == "superadmin"
  {
    if w.author.Some? then w.author.value else spec.author.GetOr("superadmin")
  }

  /** The file name under which the demo image of a card is saved. */
  function DemoImageName(uuid: string): string
  {
    "demo_image_" + uuid + ".gif"
  }

  /** The demo image's name has the stem `demo_image_<uuid>` and the suffix `.gif`. */
  lemma DemoImageNameParts(uuid: string)
    requires '/' !in uuid
    ensures Stem(DemoImageName(uuid)) == "demo_image_" + uuid
    ensures Suffix(DemoImageName(uuid)) == ".gif"
  {
    var base := "demo_image_" + uuid;
    var ext := "gif";
    assert '/' !in base;
    assert '/' !in ext && '.' !in ext;
    assert DemoImageName(uuid) == base + "." + ext;
    StemAndSuffixOfJoin("", base, ext);
  }

  /** The demo image is stored as `images/<uuid>.gif`: the upload keeps its `.gif` suffix. */
  lemma DemoImagePath(uuid: string)
    requires '/' !in uuid
    ensures UploadPath("images", uuid, DemoImageName(uuid)) == "images" + "/" + uuid + ".gif"
  {
    DemoImageNameParts(uuid);
  }

  /**
    The ids of the cards one `create_card` call created, nested as the spec
    is: `id` is the head card and `end` the next free id once the call
    returned, so every card of the tree has an id in [id, end).
  */
  datatype Built = Built(id: CardId, end: nat, children: seq<Built>, replies: seq<Built>, sequence: seq<Built>)

  /** The head card carries the spec's columns, its parent, and the demo image when asked for. */
  ghost predicate HeadMatches(c: Card, spec: CardSpec, w: Written, parent: Option<CardId>)
  {
    var f := Effective(spec, w);
    && c.cardType == f.cardType && c.text == f.text && c.url == f.url && c.slug == f.slug
    && c.votes == f.votes && c.x == f.x && c.y == f.y && c.replyTo == f.replyTo
    && c.parent == parent && c.document == None
    && c.title == (if spec.generateImage then TitleAfterUpload(f.title, DemoImageName(c.uuid)) else f.title)
    && c.image == (if spec.generateImage then Some(UploadPath("images", c.uuid, DemoImageName(c.uuid))) else None)
  }

  /** `author_user or User.objects.get(username=name)`. */
  ghost predicate AuthorResolved(users: map<UserId, User>, author: Option<UserId>, authorUser: Option<UserId>, name: string)
  {
    author.Some? && author.value in users &&
    (if authorUser.Some? then author == authorUser else users[author.value].username == name)
  }

  /** For every title, the card is tagged with a topic card of that title. */
  ghost predicate TaggedWith(s: map<CardId, Card>, id: CardId, titles: seq<string>)
    requires id in s
  {
    forall t :: t in titles ==> exists k :: k in s[id].tags && k in s && s[k].cardType == Topic && s[k].title == t
  }

  /** The card's own `next`: its first sequence item, or unset when its spec has no sequence. */
  ghost predicate OwnLink(s: map<CardId, Card>, b: Built)
  {
    b.id in s && s[b.id].next == (if b.sequence == [] then None else Some(b.sequence[0].id))
  }

  /**
    Every sub-tree lies after the head and inside the head's id range, and
    no two sub-trees share an id: siblings come one after another, all the
    children before all the replies, all the replies before all the
    sequence items.
  */
  ghost predicate Nested(b: Built)
  {
    && (forall i :: 0 <= i < |b.children| ==> b.id < b.children[i].id && b.children[i].end <= b.end)
    && (forall i :: 0 <= i < |b.replies| ==> b.id < b.replies[i].id && b.replies[i].end <= b.end)
    && (forall i :: 0 <= i < |b.sequence| ==> b.id < b.sequence[i].id && b.sequence[i].end <= b.end)
    && (forall i :: 0 <= i < |b.sequence| - 1 ==> b.sequence[i].end <= b.sequence[i + 1].id)
    && (forall i, j :: 0 <= i < j < |b.children| ==> b.children[i].end <= b.children[j].id)
    && (forall i, j :: 0 <= i < j < |b.replies| ==> b.replies[i].end <= b.replies[j].id)
    && Apart(b.children, b.replies) && Apart(b.children, b.sequence) && Apart(b.replies, b.sequence)
  }

  /** Every tree of `xs` ends before any tree of `ys` begins. */
  ghost predicate Apart(xs: seq<Built>, ys: seq<Built>)
  {
    forall i, j :: 0 <= i < |xs| && 0 <= j < |ys| ==> xs[i].end <= ys[j].id
  }

  /** Item i's `next` is item i+1; the last item keeps its own link. */
  ghost predicate Chained(s: map<CardId, Card>, b: Built)
  {
    && (forall i :: 0 <= i < |b.sequence| - 1 ==>
          b.sequence[i].id in s && s[b.sequence[i].id].next == Some(b.sequence[i + 1].id))
    && (|b.sequence| > 0 ==> OwnLink(s, b.sequence[|b.sequence| - 1]))
  }

  /**
    The store holds the graph `create_card(spec)` builds, with `b` naming its
    cards.  The head's own `next` is not part of it (see OwnLink): a caller
    that threads the head into its own sequence overwrites it.
  */
  ghost predicate Shaped(s: map<CardId, Card>, users: map<UserId, User>, spec: CardSpec, w: Written,
                         b: Built, parent: Option<CardId>, authorUser: Option<UserId>)
    decreases spec
  {
    && b.id in s
    && b.id < b.end
    && HeadMatches(s[b.id], spec, w, parent)
    && AuthorResolved(users, s[b.id].author, authorUser, AuthorName(spec, w))
    && TaggedWith(s, b.id, spec.tagTitles)
    && |b.children| == |spec.children|
    && |b.replies| == |spec.replies|
    && |b.sequence| == |spec.sequence|
    && Nested(b)
    && (forall i :: 0 <= i < |spec.children| ==>
          Shaped(s, users, spec.children[i], Untouched, b.children[i], Some(b.id), s[b.id].author)
          && OwnLink(s, b.children[i]))
    && (forall i :: 0 <= i < |spec.replies| ==>
          Shaped(s, users, spec.replies[i], Written(Some(b.id), None, None), b.replies[i], None, None)
          && OwnLink(s, b.replies[i]))
    && (forall i :: 0 <= i < |spec.sequence| ==>
          Shaped(s, users, spec.sequence[i], ItemWrites(users[s[b.id].author.value].username),
                 b.sequence[i], None, None))
    && Chained(s, b)
  }

  /** Every sequence item is written by the head card's own author: the name written in picks one user. */
  lemma SequenceAuthor(s: map<CardId, Card>, users: map<UserId, User>, spec: CardSpec, w: Written,
                       b: Built, parent: Option<CardId>, au: Option<UserId>, i: nat)
    requires UniqueUsernames(users) && Shaped(s, users, spec, w, b, parent, au) && i < |spec.sequence|
    ensures b.sequence[i].id in s && s[b.sequence[i].id].author == s[b.id].author
  {
    var name := users[s[b.id].author.value].username;
    var item := b.sequence[i];
    assert Shaped(s, users, spec.sequence[i], ItemWrites(name), item, None, None);
    assert users[s[item.id].author.value].username == name;
  }

  /** What a later step may do to an existing card: grow its tags, and relink `next` when it is in `moved`. */
  ghost predicate Kept(a: Card, b: Card, mayRelink: bool)
  {
    SameContent(b, a) && b.parent == a.parent && b.replyTo == a.replyTo && a.tags <= b.tags &&
    (!mayRelink ==> b.next == a.next)
  }

  /** From `s` to `t`, cards were only added, tagged, and (those in `moved`) relinked. */
  ghost predicate Evolves(s: map<CardId, Card>, t: map<CardId, Card>, moved: set<CardId>)
  {
    s.Keys <= t.Keys && forall k :: k in s ==> Kept(s[k], t[k], k in moved)
  }

  /** The cards added from `s` to `t` have successors that were added too. */
  ghost predicate NewPointsNew(s: map<CardId, Card>, t: map<CardId, Card>)
  {
    forall k :: k in t && k !in s && t[k].next.Some? ==> t[k].next.value !in s
  }

  /** No card has `id` as its successor. */
  ghost predicate NoPrev(s: map<CardId, Card>, id: CardId)
  {
    forall k :: k in s ==> s[k].next != Some(id)
  }

  lemma EvolvesRefl(s: map<CardId, Card>)
    ensures Evolves(s, s, {}) && NewPointsNew(s, s)
  {
    forall k | k in s ensures Kept(s[k], s[k], false) {
    }
  }

  lemma EvolvesTrans(s: map<CardId, Card>, t: map<CardId, Card>, u: map<CardId, Card>, m1: set<CardId>, m2: set<CardId>)
    requires Evolves(s, t, m1) && Evolves(t, u, m2)
    ensures Evolves(s, u, m1 + m2)
  {
    forall k | k in s ensures Kept(s[k], u[k], k in m1 + m2) {
      assert Kept(s[k], t[k], k in m1) && Kept(t[k], u[k], k in m2);
    }
  }

  lemma EvolvesNarrow(s: map<CardId, Card>, t: map<CardId, Card>, m: set<CardId>, m': set<CardId>)
    requires Evolves(s, t, m) && m * s.Keys <= m'
    ensures Evolves(s, t, m')
  {
    forall k | k in s ensures Kept(s[k], t[k], k in m') {
      assert Kept(s[k], t[k], k in m);
    }
  }

  lemma NewPointsNewTrans(s: map<CardId, Card>, t: map<CardId, Card>, u: map<CardId, Card>)
    requires NewPointsNew(s, t) && NewPointsNew(t, u) && Evolves(t, u, {}) && s.Keys <= t.Keys
    ensures NewPointsNew(s, u)
  {
    forall k | k in u && k !in s && u[k].next.Some? ensures u[k].next.value !in s {
      if k in t {
        assert Kept(t[k], u[k], false);
      }
    }
  }

  lemma NoPrevStable(s: map<CardId, Card>, t: map<CardId, Card>, id: CardId)
    requires NoPrev(s, id) && id in s && Evolves(s, t, {}) && NewPointsNew(s, t)
    ensures NoPrev(t, id)
  {
    forall k | k in t ensures t[k].next != Some(id) {
      if k in s {
        assert Kept(s[k], t[k], false);
      }
    }
  }

  /** Relinking one card's `next` is an evolution that moves only that card. */
  lemma RelinkEvolves(s: map<CardId, Card>, a: CardId, x: Option<CardId>)
    requires a in s
    ensures Evolves(s, s[a := s[a].(next := x)], {a})
  {
    var t := s[a := s[a].(next := x)];
    assert SameContent(t[a], s[a]);
    forall k | k in s ensures Kept(s[k], t[k], k in {a}) {
      if k != a {
        assert t[k] == s[k];
      }
    }
  }

  /** Tagging is an evolution that moves nothing. */
  lemma AddTagEvolves(s: map<CardId, Card>, a: CardId, b: CardId)
    requires a in s && b in s
    ensures Evolves(s, AddTagPair(s, a, b), {})
    ensures NewPointsNew(s, AddTagPair(s, a, b))
  {
    var t := AddTagPair(s, a, b);
    forall k | k in s ensures Kept(s[k], t[k], false) {
    }
  }

  /** Inserting a new card is an evolution that moves nothing. */
  lemma InsertEvolves(s: map<CardId, Card>, id: CardId, c: Card)
    requires id !in s && c.next == None
    ensures Evolves(s, s[id := c], {})
    ensures NewPointsNew(s, s[id := c])
  {
    var t := s[id := c];
    forall k | k in s ensures Kept(s[k], t[k], false) {
      assert t[k] == s[k];
    }
  }

  /** Adding cards without successors, and changing nothing else, is an evolution that moves nothing. */
  lemma AddedOnly(s: map<CardId, Card>, t: map<CardId, Card>)
    requires s.Keys <= t.Keys
    requires forall k :: k in s ==> t[k] == s[k]
    requires forall k :: k in t && k !in s ==> t[k].next == None
    ensures Evolves(s, t, {}) && NewPointsNew(s, t)
  {
    forall k | k in s ensures Kept(s[k], t[k], false) {
      assert t[k] == s[k];
    }
  }

  /** An evolution that adds no topic card of that title leaves the topics of that title as they were. */
  lemma TopicsTitledEvolves(s: map<CardId, Card>, t: map<CardId, Card>, moved: set<CardId>, title: string)
    requires Evolves(s, t, moved)
    requires forall k :: k in t && k !in s ==> !(t[k].cardType == Topic && t[k].title == title)
    ensures TopicsTitled(t, title) == TopicsTitled(s, title)
  {
    forall k | k in t ensures k in TopicsTitled(t, title) <==> k in TopicsTitled(s, title) {
      if k in s {
        assert Kept(s[k], t[k], k in moved);
      }
    }
  }

  /** Tag witnesses survive an evolution: tags only grow and topic cards keep their type and title. */
  lemma TaggedStable(s: map<CardId, Card>, t: map<CardId, Card>, moved: set<CardId>, id: CardId, titles: seq<string>)
    requires id in s && Evolves(s, t, moved) && TaggedWith(s, id, titles)
    ensures id in t && TaggedWith(t, id, titles)
  {
    assert Kept(s[id], t[id], id in moved);
    forall title | title in titles
      ensures exists k :: k in t[id].tags && k in t && t[k].cardType == Topic && t[k].title == title
    {
      var k :| k in s[id].tags && k in s && s[k].cardType == Topic && s[k].title == title;
      assert Kept(s[k], t[k], k in moved);
    }
  }

  /** The head's own columns, author and tags survive an evolution. */
  lemma HeadStable(s: map<CardId, Card>, t: map<CardId, Card>, moved: set<CardId>,
                   users: map<UserId, User>, spec: CardSpec, w: Written,
                   id: CardId, parent: Option<CardId>, au: Option<UserId>)
    requires id in s && Evolves(s, t, moved)
    requires HeadMatches(s[id], spec, w, parent)
    requires AuthorResolved(users, s[id].author, au, AuthorName(spec, w))
    requires TaggedWith(s, id, spec.tagTitles)
    ensures id in t && t[id].author == s[id].author
    ensures HeadMatches(t[id], spec, w, parent)
    ensures AuthorResolved(users, t[id].author, au, AuthorName(spec, w))
    ensures TaggedWith(t, id, spec.tagTitles)
  {
    assert Kept(s[id], t[id], id in moved);
    TaggedStable(s, t, moved, id, spec.tagTitles);
  }

  lemma LinkStable(s: map<CardId, Card>, t: map<CardId, Card>, moved: set<CardId>, b: Built)
    requires OwnLink(s, b) && Evolves(s, t, moved) && b.id !in moved
    ensures OwnLink(t, b)
  {
    assert Kept(s[b.id], t[b.id], false);
  }

  lemma ChainStable(s: map<CardId, Card>, t: map<CardId, Card>, moved: set<CardId>, b: Built)
    requires Chained(s, b) && Evolves(s, t, moved)
    requires forall i :: 0 <= i < |b.sequence| ==> b.sequence[i].id !in moved
    ensures Chained(t, b)
  {
    forall i | 0 <= i < |b.sequence| - 1
      ensures b.sequence[i].id in t && t[b.sequence[i].id].next == Some(b.sequence[i + 1].id)
    {
      var c := b.sequence[i];
      assert Kept(s[c.id], t[c.id], false);
    }
    if |b.sequence| > 0 {
      LinkStable(s, t, moved, b.sequence[|b.sequence| - 1]);
    }
  }

  /** The children of a finished sub-graph keep their shapes and own links (see ShapedStable). */
  lemma {:induction false} ChildrenStable(s: map<CardId, Card>, t: map<CardId, Card>, moved: set<CardId>,
                                          users: map<UserId, User>, spec: CardSpec, w: Written,
                                          b: Built, parent: Option<CardId>, au: Option<UserId>)
    requires Shaped(s, users, spec, w, b, parent, au) && Evolves(s, t, moved)
    requires forall m :: m in moved ==> !(b.id < m < b.end)
    ensures forall i :: 0 <= i < |spec.children| ==>
      Shaped(t, users, spec.children[i], Untouched, b.children[i], Some(b.id), s[b.id].author)
      && OwnLink(t, b.children[i])
    decreases spec, 0
  {
    forall i | 0 <= i < |spec.children|
      ensures Shaped(t, users, spec.children[i], Untouched, b.children[i], Some(b.id), s[b.id].author)
      ensures OwnLink(t, b.children[i])
    {
      ShapedStable(s, t, moved, users, spec.children[i], Untouched, b.children[i], Some(b.id), s[b.id].author);
      LinkStable(s, t, moved, b.children[i]);
    }
  }

  /** The replies of a finished sub-graph keep their shapes and own links (see ShapedStable). */
  lemma {:induction false} RepliesStable(s: map<CardId, Card>, t: map<CardId, Card>, moved: set<CardId>,
                                         users: map<UserId, User>, spec: CardSpec, w: Written,
                                         b: Built, parent: Option<CardId>, au: Option<UserId>)
    requires Shaped(s, users, spec, w, b, parent, au) && Evolves(s, t, moved)
    requires forall m :: m in moved ==> !(b.id < m < b.end)
    ensures forall i :: 0 <= i < |spec.replies| ==>
      Shaped(t, users, spec.replies[i], Written(Some(b.id), None, None), b.replies[i], None, None)
      && OwnLink(t, b.replies[i])
    decreases spec, 0
  {
    forall i | 0 <= i < |spec.replies|
      ensures Shaped(t, users, spec.replies[i], Written(Some(b.id), None, None), b.replies[i], None, None)
      ensures OwnLink(t, b.replies[i])
    {
      ShapedStable(s, t, moved, users, spec.replies[i], Written(Some(b.id), None, None), b.replies[i], None, None);
      LinkStable(s, t, moved, b.replies[i]);
    }
  }

  /** The sequence items of a finished sub-graph keep their shapes (see ShapedStable). */
  lemma {:induction false} SequenceStable(s: map<CardId, Card>, t: map<CardId, Card>, moved: set<CardId>,
                                          users: map<UserId, User>, spec: CardSpec, w: Written,
                                          b: Built, parent: Option<CardId>, au: Option<UserId>)
    requires Shaped(s, users, spec, w, b, parent, au) && Evolves(s, t, moved)
    requires forall m :: m in moved ==> !(b.id < m < b.end)
    ensures forall i :: 0 <= i < |spec.sequence| ==>
      Shaped(t, users, spec.sequence[i], ItemWrites(users[s[b.id].author.value].username), b.sequence[i], None, None)
    decreases spec, 0
  {
    var name := users[s[b.id].author.value].username;
    forall i | 0 <= i < |spec.sequence|
      ensures Shaped(t, users, spec.sequence[i], ItemWrites(name), b.sequence[i], None, None)
    {
      ShapedStable(s, t, moved, users, spec.sequence[i], ItemWrites(name), b.sequence[i], None, None);
    }
  }

  /**
    The shape of a finished sub-graph survives every later step of the
    build: new cards, new tags, and new `next` links from cards outside
    its id range or from its head.
  */
  lemma {:induction false} ShapedStable(s: map<CardId, Card>, t: map<CardId, Card>, moved: set<CardId>,
                                        users: map<UserId, User>, spec: CardSpec, w: Written,
                                        b: Built, parent: Option<CardId>, au: Option<UserId>)
    requires Shaped(s, users, spec, w, b, parent, au)
    requires Evolves(s, t, moved)
    requires forall m :: m in moved ==> !(b.id < m < b.end)
    ensures Shaped(t, users, spec, w, b, parent, au)
    decreases spec, 1
  {
    HeadStable(s, t, moved, users, spec, w, b.id, parent, au);
    ChildrenStable(s, t, moved, users, spec, w, b, parent, au);
    RepliesStable(s, t, moved, users, spec, w, b, parent, au);
    SequenceStable(s, t, moved, users, spec, w, b, parent, au);
    ChainStable(s, t, moved, b);
  }
}
