/**
  The demo command's entry point (backend/core/management/commands/create_demo_data.py,
  `handle`) and its data: the users it creates, with the names split and the
  staff flags set, and the card specs it builds one after another.
*/
module DemoCommand {
  import opened Wrappers
  import opened PyStr
  import opened ZettleModels
  import opened ZettleStore
  import opened DemoShape
  import opened DemoBuild

  /** One `(username, full_name, email)` entry of the demo users. */
  datatype DemoUser = DemoUser(username: string, fullName: string, email: string)

  const DemoUsers: seq<DemoUser> := [
    DemoUser("superadmin", "Super Admin User", "admin@example.com"),
    DemoUser("sarah", "Sarah Developer", "sarah@example.com"),
    DemoUser("mike", "Mike Designer", "mike@example.com"),
    DemoUser("alex", "Alex Writer", "alex@example.com")
  ]

  /** A spec with every column at its default and no nested data. */
  const Leaf := CardSpec(DefaultFields, None, [], [], [], [], false)

  function Columns(t: CardType, title: string, text: string, x: Option<int>, y: Option<int>): Fields
  {
    DefaultFields.(cardType := t, title := title, text := text, x := x, y := y)
  }

  const DemoCards: seq<CardSpec> := [
    Leaf.(fields := Columns(Topic, "Project Management",
                            "Main hub for project management concepts and techniques.", Some(0), Some(0)),
          author := Some("sarah"),
          children := [
            Leaf.(fields := Columns(Text, "Agile Methodology",
                                    "Agile is an iterative approach to project management...", Some(-100), Some(100))),
            Leaf.(fields := Columns(Text, "Scrum Framework",
                                    "Scrum is a lightweight framework that helps people...", Some(100), Some(100)))
          ]),
    Leaf.(fields := Columns(Url, "Interesting Article on Neural Networks",
                            "Great introduction to neural networks", Some(200), Some(-100))
                      .(url := "https://example.com/neural-networks"),
          author := Some("mike"),
          replies := [
            Leaf.(fields := Columns(Text, "Great Resource", "This helped me understand backpropagation!", None, None),
                  author := Some("alex")),
            Leaf.(fields := Columns(Text, "Additional Context", "Here's a practical example...", None, None),
                  author := Some("sarah"))
          ]),
    Leaf.(fields := Columns(Image, "System Architecture Diagram",
                            "High-level overview of our system architecture", Some(-200), Some(-200)),
          author := Some("mike"),
          generateImage := true,
          tagTitles := ["Architecture", "Documentation"]),
    Leaf.(fields := Columns(Text, "Getting Started", "Step 1: Installation", Some(300), Some(300)),
          author := Some("sarah"),
          sequence := [
            Leaf.(fields := DefaultFields.(title := "Configuration", text := "Step 2: Configure your environment")),
            Leaf.(fields := DefaultFields.(title := "First Steps", text := "Step 3: Create your first project"))
          ])
  ]

  /** One of the demo users is named `name`. */
  predicate IsDemoUsername(name: string)
  {
    exists j :: 0 <= j < |DemoUsers| && DemoUsers[j].username == name
  }

  /**
    The demo cards, in order: a topic hub with two children, a link with two
    replies, an image with two tags, and a card with a two-step sequence.
    Every author they name, for a card or for a reply, is a demo user.
  */
  lemma DemoCardsListed()
    ensures |DemoCards| == 4
    ensures DemoCards[0].fields.cardType == Topic && |DemoCards[0].children| == 2
    ensures DemoCards[1].fields.cardType == Url && DemoCards[1].fields.url == "https://example.com/neural-networks"
    ensures |DemoCards[1].replies| == 2
    ensures DemoCards[2].fields.cardType == Image && DemoCards[2].generateImage
    ensures DemoCards[2].tagTitles == ["Architecture", "Documentation"]
    ensures |DemoCards[3].sequence| == 2
    ensures forall i :: 0 <= i < |DemoCards| ==> IsDemoUsername(AuthorName(DemoCards[i], Untouched))
    ensures forall k :: 0 <= k < |DemoCards[1].replies| ==> IsDemoUsername(AuthorName(DemoCards[1].replies[k], Untouched))
  {
    assert DemoUsers[1].username == "sarah" && DemoUsers[2].username == "mike" && DemoUsers[3].username == "alex";
    assert AuthorName(DemoCards[0], Untouched) == "sarah" && AuthorName(DemoCards[1], Untouched) == "mike";
    assert AuthorName(DemoCards[2], Untouched) == "mike" && AuthorName(DemoCards[3], Untouched) == "sarah";
    assert AuthorName(DemoCards[1].replies[0], Untouched) == "alex";
    assert AuthorName(DemoCards[1].replies[1], Untouched) == "sarah";
  }

  /**
    The user row `handle` leaves for entry `e`: its username and email, the
    full name split at its first space into first and last name, and the
    staff and superuser flags set exactly for "superadmin".
  */
  predicate Seeded(u: User, e: DemoUser)
  {
    && u.username == e.username && u.email == e.email
    && e.fullName == u.firstName + " " + u.lastName && ' ' !in u.firstName
    && u.isStaff == (e.username == "superadmin") && u.isSuperuser == (e.username == "superadmin")
  }

  /** An entry determines its names: they are the two parts `full_name.split(" ", 1)` gives. */
  lemma SeededIsSplit(u: User, e: DemoUser)
    requires Seeded(u, e)
    ensures SplitOnce(e.fullName, ' ') == Some((u.firstName, u.lastName))
  {
    SplitOnceJoin(u.firstName, ' ', u.lastName);
  }

  /** An entry determines its user row completely. */
  lemma SeededUnique(u: User, v: User, e: DemoUser)
    requires Seeded(u, e) && Seeded(v, e)
    ensures u == v
  {
    SeededIsSplit(u, e);
    SeededIsSplit(v, e);
  }

  /** The entries can all be created: non-empty, new and distinct usernames, and full names with a space. */
  ghost predicate Creatable(users: map<UserId, User>, entries: seq<DemoUser>)
  {
    && (forall i :: 0 <= i < |entries| ==> entries[i].username != "" && ' ' in entries[i].fullName)
    && (forall i, u :: 0 <= i < |entries| && u in users ==> users[u].username != entries[i].username)
    && (forall i, j :: 0 <= i < j < |entries| ==> entries[i].username != entries[j].username)
  }

  /** Once the first entry is created, the rest can still be. */
  lemma CreatableStep(users: map<UserId, User>, entries: seq<DemoUser>, u: UserId, row: User)
    requires Creatable(users, entries) && |entries| > 0 && row.username == entries[0].username
    ensures Creatable(users[u := row], entries[1..])
  {
  }

  lemma DemoUsersCreatable()
    ensures Creatable(map[], DemoUsers)
  {
    assert DemoUsers[0].fullName[5] == ' ';
    assert DemoUsers[1].fullName[5] == ' ';
    assert DemoUsers[2].fullName[4] == ' ';
    assert DemoUsers[3].fullName[4] == ' ';
    forall i, j | 0 <= i < j < |DemoUsers|
      ensures DemoUsers[i].username != DemoUsers[j].username
    {
      assert |DemoUsers[0].username| == 10 && |DemoUsers[1].username| == 5;
      assert DemoUsers[2].username[0] == 'm' && DemoUsers[3].username[0] == 'a';
    }
  }

  /**
    One pass of the user loop: `create_user`, `full_name.split(" ", 1)`
    unpacked into two names, the two flags, `save()`.  An empty or taken
    username fails before anything is written; a full name without a space
    fails after the user row was created, with its names still blank.
  */
  method CreateDemoUser(store: Store, e: DemoUser) returns (r: Result<UserId, Error>)
    requires store.Valid()
    modifies store
    ensures store.Valid()
    ensures store.cards == old(store.cards) && store.nextCard == old(store.nextCard)
    ensures r.Success? <==>
      && e.username != ""
      && (forall u :: u in old(store.users) ==> old(store.users)[u].username != e.username)
      && ' ' in e.fullName
    ensures r.Success? ==>
      && r.value == old(store.nextUser) && store.nextUser == old(store.nextUser) + 1 && r.value in store.users
      && store.users == old(store.users)[r.value := store.users[r.value]]
      && Seeded(store.users[r.value], e)
    ensures e.username == "" ==>
      r == Failure(EmptyUsername) && store.users == old(store.users) && store.nextUser == old(store.nextUser)
    ensures e.username != "" && (exists u :: u in old(store.users) && old(store.users)[u].username == e.username) ==>
      r == Failure(DuplicateUsername(e.username)) && store.users == old(store.users)
      && store.nextUser == old(store.nextUser)
    ensures e.username != "" && (forall u :: u in old(store.users) ==> old(store.users)[u].username != e.username)
            && ' ' !in e.fullName ==>
      && r == Failure(CannotUnpack(e.fullName))
      && store.users == old(store.users)[old(store.nextUser) := User(e.username, e.email, "", "", false, false)]
      && store.nextUser == old(store.nextUser) + 1
  {
    var created := store.CreateUser(e.username, e.email);
    if created.Failure? {
      return created;
    }
    var u := created.value;
    var names := SplitOnce(e.fullName, ' ');
    if names.None? {
      return Failure(CannotUnpack(e.fullName));
    }
    var (first, last) := names.value;
    store.SaveUser(u, first, last, e.username == "superadmin", e.username == "superadmin");
    r := Success(u);
  }

  /** After the first `i` entries: the users from before, unchanged, and entry j as user `n0 + j`. */
  ghost predicate UsersMade(u0: map<UserId, User>, users: map<UserId, User>, n0: nat, entries: seq<DemoUser>, i: nat)
  {
    && i <= |entries|
    && (forall u :: u in users <==> u in u0 || n0 <= u < n0 + i)
    && (forall u :: u in u0 ==> users[u] == u0[u])
    && (forall j :: 0 <= j < i ==> Seeded(users[n0 + j], entries[j]))
  }

  lemma UsersMadeStep(u0: map<UserId, User>, users: map<UserId, User>, n0: nat, entries: seq<DemoUser>, i: nat, row: User)
    requires UsersMade(u0, users, n0, entries, i) && i < |entries|
    requires (forall u :: u in u0 ==> u < n0) && Seeded(row, entries[i])
    ensures UsersMade(u0, users[n0 + i := row], n0, entries, i + 1)
  {
  }

  /** One turn of the user loop, for UsersMade and Creatable. */
  method CreateNextUser(store: Store, entries: seq<DemoUser>, i: nat, ghost u0: map<UserId, User>, ghost n0: nat)
    returns (r: Outcome<Error>)
    requires store.Valid() && i < |entries| && store.nextUser == n0 + i
    requires (forall u :: u in u0 ==> u < n0) && UsersMade(u0, store.users, n0, entries, i)
    requires Creatable(u0, entries) ==> Creatable(store.users, entries[i..])
    modifies store
    ensures store.Valid()
    ensures store.cards == old(store.cards) && store.nextCard == old(store.nextCard)
    ensures r.Pass? ==> store.nextUser == n0 + i + 1 && UsersMade(u0, store.users, n0, entries, i + 1)
    ensures r.Pass? && Creatable(u0, entries) ==> Creatable(store.users, entries[i + 1..])
    ensures r.Fail? ==>
      (r.error.EmptyUsername? || r.error.DuplicateUsername? || r.error.CannotUnpack?) && !Creatable(u0, entries)
  {
    ghost var us := store.users;
    assert entries[i..][0] == entries[i] && entries[i..][1..] == entries[i + 1..];
    var made := CreateDemoUser(store, entries[i]);
    if made.Failure? {
      return Fail(made.error);
    }
    UsersMadeStep(u0, us, n0, entries, i, store.users[n0 + i]);
    if Creatable(u0, entries) {
      CreatableStep(us, entries[i..], n0 + i, store.users[n0 + i]);
    }
    r := Pass;
  }

  /**
    The user loop of `handle`: entry i becomes user `old(nextUser) + i`, and
    users that existed before are left as they were.  It stops at the first
    entry that fails, and it does not fail when the entries are creatable.
  */
  method CreateUsers(store: Store, entries: seq<DemoUser>) returns (r: Outcome<Error>)
    requires store.Valid()
    modifies store
    ensures store.Valid()
    ensures store.cards == old(store.cards) && store.nextCard == old(store.nextCard)
    ensures r.Pass? ==> store.nextUser == old(store.nextUser) + |entries|
    ensures r.Pass? ==> UsersMade(old(store.users), store.users, old(store.nextUser), entries, |entries|)
    ensures r.Fail? ==> r.error.EmptyUsername? || r.error.DuplicateUsername? || r.error.CannotUnpack?
    ensures Creatable(old(store.users), entries) ==> r.Pass?
  {
    ghost var n0 := store.nextUser;
    ghost var u0 := store.users;
    assert forall u :: u in u0 ==> u < n0;
    for i := 0 to |entries|
      invariant store.Valid()
      invariant store.cards == old(store.cards) && store.nextCard == old(store.nextCard)
      invariant store.nextUser == n0 + i && UsersMade(u0, store.users, n0, entries, i)
      invariant Creatable(u0, entries) ==> Creatable(store.users, entries[i..])
    {
      r := CreateNextUser(store, entries, i, u0, n0);
      if r.Fail? {
        return;
      }
    }
    r := Pass;
  }

  /** The graphs were built one after another: each starts where the previous one ended. */
  ghost predicate Consecutive(bs: seq<Built>)
  {
    forall j :: 0 <= j < |bs| - 1 ==> bs[j].end == bs[j + 1].id
  }

  lemma ConsecutiveStep(bs: seq<Built>, b: Built)
    requires Consecutive(bs) && (bs != [] ==> bs[|bs| - 1].end == b.id)
    ensures Consecutive(bs + [b])
  {
    forall j | 0 <= j < |bs|
      ensures (bs + [b])[j].end == (bs + [b])[j + 1].id
    {
    }
  }

  /** After the first `|bs|` specs of the card loop, which began on `s0` with `n0` as the next id. */
  ghost predicate CardsInv(s0: map<CardId, Card>, s: map<CardId, Card>, users: map<UserId, User>,
                           specs: seq<CardSpec>, bs: seq<Built>, n0: nat, next: nat)
  {
    && Evolves(s0, s, {}) && n0 <= next
    && Consecutive(bs) && (bs != [] ==> bs[|bs| - 1].end == next)
    && BranchDone(s, users, specs, Untouched, bs, None, None, n0, next)
  }

  /** Before the card loop nothing is built. */
  lemma CardsInvStart(s0: map<CardId, Card>, users: map<UserId, User>, specs: seq<CardSpec>, n0: nat)
    ensures CardsInv(s0, s0, users, specs, [], n0, n0)
  {
    EvolvesRefl(s0);
  }

  /** One turn of the card loop: `create_card` on the next spec. */
  method CreateNextCard(store: Store, specs: seq<CardSpec>, i: nat, ghost s0: map<CardId, Card>, ghost n0: nat,
                        ghost bs: seq<Built>)
    returns (r: Outcome<Error>, ghost bs': seq<Built>)
    requires store.Valid() && |bs| == i < |specs|
    requires CardsInv(s0, store.cards, store.users, specs, bs, n0, store.nextCard)
    modifies store
    ensures store.Valid()
    ensures store.users == old(store.users) && store.nextUser == old(store.nextUser)
    ensures Evolves(s0, store.cards, {})
    ensures r.Pass? ==> |bs'| == |bs| + 1 && CardsInv(s0, store.cards, store.users, specs, bs', n0, store.nextCard)
  {
    ghost var s := store.cards;
    var made, b := CreateCard(store, specs[i], None, None, Untouched);
    EvolvesTrans(s0, s, store.cards, {}, {});
    bs' := bs + [b];
    if made.Failure? {
      return Fail(made.error), bs';
    }
    BranchStep(s, store.cards, store.users, specs, Untouched, bs, b, None, None, n0, b.id, store.nextCard);
    ConsecutiveStep(bs, b);
    r := Pass;
  }

  /**
    The card loop of `handle`: `create_card(card_data)` for each spec in
    turn, with no parent and no author given.  Each finished graph keeps its
    shape while the later ones are built, and the graphs lie side by side
    in the ids created since the loop began.
  */
  method CreateCards(store: Store, specs: seq<CardSpec>) returns (r: Outcome<Error>, ghost bs: seq<Built>)
    requires store.Valid()
    modifies store
    ensures store.Valid()
    ensures store.users == old(store.users) && store.nextUser == old(store.nextUser)
    ensures Evolves(old(store.cards), store.cards, {})
    ensures r.Pass? ==>
      |bs| == |specs| && CardsInv(old(store.cards), store.cards, store.users, specs, bs, old(store.nextCard), store.nextCard)
  {
    bs := [];
    ghost var s0 := store.cards;
    CardsInvStart(s0, store.users, specs, store.nextCard);
    for i := 0 to |specs|
      invariant store.Valid()
      invariant store.users == old(store.users) && store.nextUser == old(store.nextUser)
      invariant |bs| == i && CardsInv(s0, store.cards, store.users, specs, bs, old(store.nextCard), store.nextCard)
    {
      r, bs := CreateNextCard(store, specs, i, s0, old(store.nextCard), bs);
      if r.Fail? {
        return;
      }
    }
    r := Pass;
  }

  /**
    `handle`: the demo users, then the demo cards.  On a store with no users
    every demo user is created; each demo card spec then yields a graph of
    the shape `create_card` promises.  An error stops the command with the
    writes made so far in place.
  */
  method Handle(store: Store) returns (r: Outcome<Error>, ghost bs: seq<Built>)
    requires store.Valid()
    modifies store
    ensures store.Valid()
    ensures old(store.users) == map[] || r.Pass? ==>
      UsersMade(old(store.users), store.users, old(store.nextUser), DemoUsers, |DemoUsers|)
    ensures r.Pass? ==>
      && |bs| == |DemoCards| && Consecutive(bs)
      && BranchDone(store.cards, store.users, DemoCards, Untouched, bs, None, None, old(store.nextCard), store.nextCard)
  {
    bs := [];
    if store.users == map[] {
      DemoUsersCreatable();
    }
    r := CreateUsers(store, DemoUsers);
    if r.Fail? {
      return;
    }
    r, bs := CreateCards(store, DemoCards);
  }
}
