/**
  The card record of backend/zettle/models.py: its fields, the helpers that
  derive a title and a storage path from an uploaded file name, its string
  forms, and the relational shape of the self-references (parent, next,
  reply_to, tags) together with what deleting a card does to them.
*/
module ZettleModels {
  import opened Wrappers
  import opened PyStr
  import opened PathLib

  type CardId = nat
  type UserId = nat

  /** `ZettleCard.CardType`: the stored value and the human-readable label of each choice. */
  datatype CardType = Text | Image | Url | Model | Topic {
    function Value(): string {
      match this
      case Text => "text"
      case Image => "image"
      case Url => "url"
      case Model => "model"
      case Topic => "topic"
    }

    function Label(): string {
      match this
      case Text => "Text Card"
      case Image => "Image Card"
      case Url => "URL Card"
      case Model => "Model Reference Card"
      case Topic => "Topic Card"
    }
  }

  /** The choice whose stored value is `v`, or None when `v` is not one of the choices. */
  function ParseCardType(v: string): (r: Option<CardType>)
    ensures r.Some? ==> r.value.Value() == v
    ensures r.None? ==> forall t: CardType :: t.Value() != v
  {
    if v == "text" then Some(Text)
    else if v == "image" then Some(Image)
    else if v == "url" then Some(Url)
    else if v == "model" then Some(Model)
    else if v == "topic" then Some(Topic)
    else None
  }

  /**
    A stored card.  Nullable columns are Options; `tags` holds the cards
    this card is tagged with.  `image` and `document` hold the stored file
    name of the attachment, if any.
  */
  datatype Card = Card(
    uuid: string,
    cardType: CardType,
    author: Option<UserId>,
    title: string,
    votes: int,
    text: string,
    image: Option<string>,
    document: Option<string>,
    url: string,
    parent: Option<CardId>,
    next: Option<CardId>,
    replyTo: Option<CardId>,
    tags: set<CardId>,
    slug: string,
    x: Option<int>,
    y: Option<int>)

  /** `format_filename_as_title`: the stem of the final component, '-' and '_' read as spaces, capitalised. */
  function FormatFilenameAsTitle(filename: string): (title: string)
    ensures '-' !in title && '_' !in title
    ensures IsCapitalized(title)
    ensures |title| == |Stem(filename)|
    ensures forall k :: 0 <= k < |title| ==>
      Lower(title[k]) == Lower(if Stem(filename)[k] in "-_" then ' ' else Stem(filename)[k])
  {
    var spaced := ReplaceChar(ReplaceChar(Stem(filename), '-', ' '), '_', ' ');
    var title := Capitalize(spaced);
    assert forall k :: 0 <= k < |title| ==> title[k] != '-' && title[k] != '_' by {
      forall k | 0 <= k < |title| ensures title[k] != '-' && title[k] != '_' {
        assert Lower(title[k]) == Lower(spaced[k]);
      }
    }
    title
  }

  /** The title a card has after an upload: the derived one when it had none, its own otherwise. */
  function TitleAfterUpload(title: string, filename: string): (r: string)
    ensures title != "" ==> r == title
    ensures title == "" ==> r == FormatFilenameAsTitle(filename)
  {
    if title == "" then FormatFilenameAsTitle(filename) else title
  }

  /** `<folder>/<uuid><suffix>`: the storage path both upload helpers build. */
  function UploadPath(folder: string, uuid: string, filename: string): string
  {
    folder + "/" + uuid + Suffix(filename)
  }

  /** The upload path, by position: the folder and a '/', the card's uuid, then the uploaded file's suffix. */
  lemma UploadPathParts(folder: string, uuid: string, filename: string)
    ensures |UploadPath(folder, uuid, filename)| == |folder| + 1 + |uuid| + |Suffix(filename)|
    ensures UploadPath(folder, uuid, filename)[..|folder| + 1] == folder + "/"
    ensures UploadPath(folder, uuid, filename)[|folder| + 1..|folder| + 1 + |uuid|] == uuid
    ensures UploadPath(folder, uuid, filename)[|folder| + 1 + |uuid|..] == Suffix(filename)
  {
  }

  /** The card once an image file is saved to it: the path in the image column, the title filled in when empty. */
  function ImageSaved(c: Card, filename: string): Card
  {
    c.(title := TitleAfterUpload(c.title, filename), image := Some(UploadPath("images", c.uuid, filename)))
  }

  /**
    Saving an image changes the image column and, for an untitled card, the
    title; every other column and every reference stays.
  */
  lemma ImageSavedChanges(c: Card, filename: string)
    ensures ImageSaved(c, filename).image == Some(UploadPath("images", c.uuid, filename))
    ensures c.title != "" ==> ImageSaved(c, filename).title == c.title
    ensures c.title == "" ==> ImageSaved(c, filename).title == FormatFilenameAsTitle(filename)
    ensures ImageSaved(c, filename).(title := c.title, image := c.image) == c
  {
  }

  /**
    A stored file keeps the extension of the uploaded one and is named after
    the card's uuid (which, as text, holds neither '/' nor '.').
  */
  lemma UploadPathKeepsSuffix(folder: string, uuid: string, filename: string)
    requires uuid != "" && '/' !in uuid && '.' !in uuid
    ensures Name(UploadPath(folder, uuid, filename)) == uuid + Suffix(filename)
    ensures Suffix(UploadPath(folder, uuid, filename)) == Suffix(filename)
    ensures Stem(UploadPath(folder, uuid, filename)) == uuid
  {
    var ext := Suffix(filename);
    var name := uuid + ext;
    assert UploadPath(folder, uuid, filename) == folder + "/" + name;
    assert '/' !in name by {
      assert forall k :: 0 <= k < |name| ==> name[k] == if k < |uuid| then uuid[k] else ext[k - |uuid|];
    }
    assert name != "." by { assert name[0] == uuid[0]; }
    NameOfJoin(folder, name);
    if ext == "" {
      assert name == uuid;
      assert RFind(uuid, '.') == -1;
    } else {
      var e := ext[1..];
      assert ext == "." + e;
      StemAndSuffixOfComponent(uuid, e);
      assert name == uuid + "." + e;
    }
  }

  /** `ZettleCard.__str__`: the title, or "Untitled" when it is empty, then the type's label in parentheses. */
  function CardString(c: Card): (s: string)
    ensures |s| == |(if c.title == "" then "Untitled" else c.title)| + |c.cardType.Label()| + 3
    ensures s[..|s| - |c.cardType.Label()| - 3] != ""
    ensures c.title != "" ==> s[..|s| - |c.cardType.Label()| - 3] == c.title
    ensures c.title == "" ==> s[..|s| - |c.cardType.Label()| - 3] == "Untitled"
    ensures s[|s| - |c.cardType.Label()| - 3..] == " (" + c.cardType.Label() + ")"
  {
    var shown := if c.title == "" then "Untitled" else c.title;
    var s := shown + " (" + c.cardType.Label() + ")";
    assert s[..|shown|] == shown;
    assert s[|shown|..] == " (" + c.cardType.Label() + ")";
    s
  }

  /** Two cards with the same title print the same only when they have the same type. */
  lemma CardStringShowsType(a: Card, b: Card)
    requires a.title == b.title && CardString(a) == CardString(b)
    ensures a.cardType == b.cardType
  {
    var s := CardString(a);
    var la, lb := a.cardType.Label(), b.cardType.Label();
    assert |la| == |lb|;
    assert " (" + la + ")" == " (" + lb + ")";
    assert la == (" (" + la + ")")[2..|la| + 2];
    assert lb == (" (" + lb + ")")[2..|lb| + 2];
  }

  /** `ZettleCard.template_name`. */
  function TemplateName(t: CardType): (path: string)
    ensures |path| == |t.Value()| + 23
    ensures path[..18] == "zettle/card_types/"
    ensures path[|path| - 5..] == ".html"
    ensures path[18..|path| - 5] == t.Value()
  {
    "zettle/card_types/" + t.Value() + ".html"
  }

  /** Each card type has a template of its own. */
  lemma TemplateNameInjective(a: CardType, b: CardType)
    requires TemplateName(a) == TemplateName(b)
    ensures a == b
  {
    var p := TemplateName(a);
    assert a.Value() == p[18..|p| - 5] == b.Value();
    assert ParseCardType(a.Value()) == Some(a);
    assert ParseCardType(b.Value()) == Some(b);
  }

  // ---------------------------------------------------------------------
  // The relational shape of the self-references over a store of cards.

  /** `a` and `b` agree on every column other than the self-references. */
  predicate SameContent(a: Card, b: Card)
  {
    a.uuid == b.uuid && a.cardType == b.cardType && a.author == b.author && a.title == b.title &&
    a.votes == b.votes && a.text == b.text && a.image == b.image && a.document == b.document &&
    a.url == b.url && a.slug == b.slug && a.x == b.x && a.y == b.y
  }

  /** Whether `c` refers to `id` by any of its self-references. */
  predicate Mentions(c: Card, id: CardId)
  {
    c.parent == Some(id) || c.next == Some(id) || c.replyTo == Some(id) || id in c.tags
  }

  predicate RefersInto(s: map<CardId, Card>, r: Option<CardId>)
  {
    r.Some? ==> r.value in s
  }

  /** `next` is one-to-one: no two cards have the same successor, so a card has at most one `prev`. */
  ghost predicate NextOneToOne(s: map<CardId, Card>)
  {
    forall a, b {:trigger s[a].next, s[b].next} :: a in s && b in s && a != b && s[a].next.Some? ==> s[a].next != s[b].next
  }

  /** `tags` is symmetrical: when a is tagged with b, b is tagged with a. */
  ghost predicate TagsSymmetric(s: map<CardId, Card>)
  {
    forall a, b {:trigger b in s[a].tags} :: a in s && b in s[a].tags ==> b in s && a in s[b].tags
  }

  /** The invariant of the card table: references are to stored cards, `next` is one-to-one, `tags` symmetric. */
  ghost predicate Consistent(s: map<CardId, Card>)
  {
    (forall a :: a in s ==>
       RefersInto(s, s[a].parent) && RefersInto(s, s[a].next) && RefersInto(s, s[a].replyTo))
    && NextOneToOne(s)
    && TagsSymmetric(s)
  }

  /** One card after `gone` is deleted: every reference to it is nulled (SET_NULL), its tag link removed. */
  function Detach(c: Card, gone: CardId): (r: Card)
    ensures !Mentions(r, gone)
    ensures forall id :: id != gone ==>
      (r.parent == Some(id) <==> c.parent == Some(id)) &&
      (r.next == Some(id) <==> c.next == Some(id)) &&
      (r.replyTo == Some(id) <==> c.replyTo == Some(id)) &&
      (id in r.tags <==> id in c.tags)
    ensures SameContent(r, c)
  {
    c.(parent := if c.parent == Some(gone) then None else c.parent,
       next := if c.next == Some(gone) then None else c.next,
       replyTo := if c.replyTo == Some(gone) then None else c.replyTo,
       tags := c.tags - {gone})
  }

  /** The card table after deleting `gone`. */
  function RemoveCard(s: map<CardId, Card>, gone: CardId): (t: map<CardId, Card>)
    ensures t.Keys == s.Keys - {gone}
    ensures forall k :: k in t ==> t[k] == Detach(s[k], gone)
  {
    map k | k in s && k != gone :: Detach(s[k], gone)
  }

  lemma RemoveCardKeepsNextOneToOne(s: map<CardId, Card>, gone: CardId)
    requires NextOneToOne(s)
    ensures NextOneToOne(RemoveCard(s, gone))
  {
    var t := RemoveCard(s, gone);
    forall a, b | a in t && b in t && a != b && t[a].next.Some?
      ensures t[a].next != t[b].next
    {
      assert t[a].next == Some(t[a].next.value);
    }
  }

  lemma RemoveCardKeepsTagsSymmetric(s: map<CardId, Card>, gone: CardId)
    requires TagsSymmetric(s)
    ensures TagsSymmetric(RemoveCard(s, gone))
  {
    var t := RemoveCard(s, gone);
    forall a, b | a in t && b in t[a].tags
      ensures b in t && a in t[b].tags
    {
      assert b in s[a].tags;
    }
  }

  lemma RemoveCardKeepsReferences(s: map<CardId, Card>, gone: CardId)
    requires forall a :: a in s ==>
      RefersInto(s, s[a].parent) && RefersInto(s, s[a].next) && RefersInto(s, s[a].replyTo)
    ensures var t := RemoveCard(s, gone);
      forall a :: a in t ==>
        RefersInto(t, t[a].parent) && RefersInto(t, t[a].next) && RefersInto(t, t[a].replyTo)
  {
  }

  /** Deleting a card keeps the table consistent. */
  lemma RemoveCardConsistent(s: map<CardId, Card>, gone: CardId)
    requires Consistent(s)
    ensures Consistent(RemoveCard(s, gone))
  {
    RemoveCardKeepsNextOneToOne(s, gone);
    RemoveCardKeepsTagsSymmetric(s, gone);
    RemoveCardKeepsReferences(s, gone);
  }

  /** `a.tags.add(b)` on a symmetrical relation: both directions are stored. */
  function AddTagPair(s: map<CardId, Card>, a: CardId, b: CardId): (t: map<CardId, Card>)
    requires a in s && b in s
    ensures t.Keys == s.Keys
    ensures b in t[a].tags && a in t[b].tags
    ensures forall k :: k in s ==>
      SameContent(t[k], s[k]) && t[k].parent == s[k].parent && t[k].next == s[k].next &&
      t[k].replyTo == s[k].replyTo && s[k].tags <= t[k].tags
  {
    var s1 := s[a := s[a].(tags := s[a].tags + {b})];
    s1[b := s1[b].(tags := s1[b].tags + {a})]
  }

  /** The tags `AddTagPair` adds are exactly `b` to `a` and `a` to `b`: no other card gains a tag. */
  lemma AddTagPairTags(s: map<CardId, Card>, a: CardId, b: CardId, k: CardId)
    requires a in s && b in s && k in s
    ensures AddTagPair(s, a, b)[k].tags == s[k].tags + (if k == a then {b} else {}) + (if k == b then {a} else {})
  {
  }

  /** Adding a tag keeps the table consistent. */
  lemma AddTagPairConsistent(s: map<CardId, Card>, a: CardId, b: CardId)
    requires Consistent(s) && a in s && b in s
    ensures Consistent(AddTagPair(s, a, b))
  {
    var t := AddTagPair(s, a, b);
    forall x, y | x in t && y in t[x].tags
      ensures y in t && x in t[y].tags
    {
      if y !in s[x].tags {
        assert (x == a && y == b) || (x == b && y == a);
      }
    }
    assert forall x :: x in t ==> t[x].next == s[x].next;
  }

  /** The topic cards titled `title`: what `get_or_create(card_type=TOPIC, title=title)` matches. */
  function TopicsTitled(s: map<CardId, Card>, title: string): set<CardId>
  {
    set k | k in s && s[k].cardType == Topic && s[k].title == title
  }

  /** `a` and `b` have the same self-references. */
  predicate SameLinks(a: Card, b: Card)
  {
    a.parent == b.parent && a.next == b.next && a.replyTo == b.replyTo && a.tags == b.tags
  }

  /** Rewriting columns of a stored card other than its self-references keeps the table consistent. */
  lemma SameLinksConsistent(s: map<CardId, Card>, id: CardId, c: Card)
    requires Consistent(s) && id in s && SameLinks(c, s[id])
    ensures Consistent(s[id := c])
  {
    var t := s[id := c];
    assert t.Keys == s.Keys;
    assert forall a :: a in t ==> SameLinks(t[a], s[a]);
  }

  /** Inserting a new card with no successor and no tags, whose references are stored, keeps the table consistent. */
  lemma InsertConsistent(s: map<CardId, Card>, id: CardId, c: Card)
    requires Consistent(s) && id !in s
    requires c.next == None && c.tags == {} && RefersInto(s, c.parent) && RefersInto(s, c.replyTo)
    ensures Consistent(s[id := c])
  {
    var t := s[id := c];
    forall a, b | a in t && b in t[a].tags
      ensures b in t && a in t[b].tags
    {
      assert a != id;
      assert b in s[a].tags;
    }
    forall a, b | a in t && b in t && a != b && t[a].next.Some?
      ensures t[a].next != t[b].next
    {
      assert a != id;
      if b != id {
        assert s[a].next != s[b].next;
      }
    }
  }

  lemma RelinkKeepsNextOneToOne(s: map<CardId, Card>, a: CardId, b: CardId)
    requires NextOneToOne(s) && a in s
    requires forall c :: c in s && c != a ==> s[c].next != Some(b)
    ensures NextOneToOne(s[a := s[a].(next := Some(b))])
  {
    var t := s[a := s[a].(next := Some(b))];
    forall x, y | x in t && y in t && x != y && t[x].next.Some?
      ensures t[x].next != t[y].next
    {
      if x == a {
        assert t[y].next == s[y].next;
      } else if y == a {
        assert t[x].next == s[x].next;
      } else {
        assert s[x].next != s[y].next;
      }
    }
  }

  lemma RelinkKeepsTagsSymmetric(s: map<CardId, Card>, a: CardId, b: CardId)
    requires TagsSymmetric(s) && a in s
    ensures TagsSymmetric(s[a := s[a].(next := Some(b))])
  {
    var t := s[a := s[a].(next := Some(b))];
    forall x, y | x in t && y in t[x].tags
      ensures y in t && x in t[y].tags
    {
      assert y in s[x].tags;
    }
  }

  lemma RelinkKeepsReferences(s: map<CardId, Card>, a: CardId, b: CardId)
    requires Consistent(s) && a in s && b in s
    ensures var t := s[a := s[a].(next := Some(b))];
      forall x :: x in t ==> RefersInto(t, t[x].parent) && RefersInto(t, t[x].next) && RefersInto(t, t[x].replyTo)
  {
  }

  /** Making `b` the successor of `a` keeps the table consistent when no other card has `b` as its successor. */
  lemma RelinkConsistent(s: map<CardId, Card>, a: CardId, b: CardId)
    requires Consistent(s) && a in s && b in s
    requires forall c :: c in s && c != a ==> s[c].next != Some(b)
    ensures Consistent(s[a := s[a].(next := Some(b))])
  {
    RelinkKeepsNextOneToOne(s, a, b);
    RelinkKeepsTagsSymmetric(s, a, b);
    RelinkKeepsReferences(s, a, b);
  }
}
