# Zettle cards and the demo-data command, in Dafny

This project models the core of a Django "zettelkasten" application:

- the card record of `backend/zettle/models.py`:
  - the card types;
  - the title derived from an uploaded file name;
  - the storage paths of uploaded images and documents;
  - the string forms of a card;
  - its self-references: `parent`, the one-to-one `next`, `reply_to`, and the symmetrical `tags`, all with `SET_NULL` on delete;
- the `create_demo_data` management command, with:
  - its recursive `create_card`, which builds a card together with its tags, children, replies and a `next`-linked sequence;
  - its `handle`, which creates the demo users and then the demo cards.

The ORM is replaced by an in-memory store, `ZettleStore.Store`. It is a class holding:
- the card and user tables, as maps from ids to rows;
- the two auto-increment counters;
- the uuid each new card receives.

Most store methods are one ORM call: `objects.create`, a row's `save()` (which writes the whole row), `tags.add`, `delete`, `User.objects.get`, `get_or_create`, and `create_user`. Three are not ORM calls:
- `ImageUploadPath` and `FileUploadPath` are the `upload_to` helpers of `models.py`. They compute the storage path and fill in an empty title on the in-memory instance, which Django writes to the database only when the row is next saved. The model has no separate instance: the stored row stands in for it, so the title appears in the store as soon as the helper runs.
- `AttachImage` is `image.save` (`FieldFile.save`): it computes the path through the helper, stores the file, and saves the row.

An error the ORM or database would raise becomes a `Failure` value. This includes the `ValueError` that `create_user` raises for an empty username.

Modules:
- `Wrappers`: Option, Result and Outcome.
- `PyStr`: the Python string operations used, over ASCII.
- `PathLib`: `PurePosixPath.name`, `.stem` and `.suffix`.
- `ZettleModels`: `models.py`, including the table invariant `Consistent`.
- `ZettleStore`: the store class.
- `DemoShape`: `Shaped`, the shape of the graph one `create_card` call builds, and the lemmas that keep that shape while later cards are added, tagged and linked.
- `DemoBuild`: `create_card` as imperative methods over the store.
- `DemoCommand`: the demo data and `handle`.

The pathlib suffix rule follows Python 3.12 and earlier. Let `i` be the index of the last `.` in the final component. The suffix is `name[i:]` when `0 < i < len(name) - 1`, and empty otherwise; the stem is the rest of the name.

## Model

| member | source | states |
|---|---|---|
| ZettleModels.ParseCardType | backend/zettle/models.py:31-36 | the choice whose stored value is `v`, or none when no choice has that value |
| PyStr.RFind | backend/zettle/models.py:11 | `str.rfind` of one character: -1 or an index holding it, with no occurrence after it |
| PyStr.ReplaceChar | backend/zettle/models.py:12 | `str.replace` with one-character arguments: same length; each occurrence replaced, nothing else changed; the old character is gone |
| PyStr.Capitalize | backend/zettle/models.py:13 | `str.capitalize`: the result is capitalised (no lower-case letter first, no upper-case letter after it) and equals the input up to ASCII case |
| PathLib.Name | backend/zettle/models.py:11 | the final component holds no `/` and is never `.` |
| PathLib.Suffix | backend/zettle/models.py:19 | the suffix is empty or a `.` followed by at least one character and no further `.`; it holds no `/` |
| PathLib.Stem | backend/zettle/models.py:11 | stem followed by suffix is the final component |
| PathLib.NameOfJoin | backend/zettle/models.py:11 | a component joined under any directory is the final component of the result |
| PathLib.StemAndSuffixOfComponent | backend/zettle/models.py:11 | for `base.ext`, the last extension is the suffix and everything before it (earlier dots included) is the stem |
| PathLib.StemAndSuffixOfJoin | backend/zettle/models.py:11-13 | directories are ignored: `dir/base.ext` has stem `base` and suffix `.ext`, as `base.ext` has |
| PathLib.LeadingDotIsNoSuffix | backend/zettle/models.py:19 | a dot-file such as `.bashrc` has no suffix, and its stem is the whole name |
| ZettleModels.FormatFilenameAsTitle | backend/zettle/models.py:10-13 | no `-` or `_` in the title; the title is capitalised; it is as long as the stem of the final component; and each character is that stem's character (with `-` and `_` read as spaces) up to case |
| ZettleModels.TitleAfterUpload | backend/zettle/models.py:17-18 | a non-empty title is kept; an empty title becomes the title derived from the file name |
| ZettleModels.UploadPathParts | backend/zettle/models.py:20 | the path returned by both upload helpers (also line 27) is, by position, the folder, `/`, the card's uuid, then the uploaded file's suffix |
| ZettleModels.UploadPathKeepsSuffix | backend/zettle/models.py:19-20 | the stored file is named `uuid + suffix`: it keeps the uploaded file's suffix, and its stem is the card's uuid |
| ZettleModels.CardString | backend/zettle/models.py:118-119 | `__str__` is the title (or "Untitled" when empty) followed by ` (label)`; the part before the label is never empty |
| ZettleModels.CardStringShowsType | backend/zettle/models.py:118-119 | two cards with the same title print the same only when they have the same type |
| ZettleModels.TemplateName | backend/zettle/models.py:102-105 | `zettle/card_types/` + the type's stored value + `.html`, by position |
| ZettleModels.TemplateNameInjective | backend/zettle/models.py:102-105 | different card types have different templates |
| ZettleModels.ImageSavedChanges | backend/zettle/models.py:16-20 | after `image.save`, the image column holds the upload path; the title is kept when set and derived from the file name when empty; nothing else changes |
| ZettleModels.Detach | backend/zettle/models.py:74-97 | after the delete, a card no longer refers to the deleted one; every other reference and every column is unchanged |
| ZettleModels.RemoveCard | backend/zettle/models.py:74-97 | deleting removes exactly that row, and each other card is detached from it |
| ZettleModels.RemoveCardKeepsNextOneToOne | backend/zettle/models.py:81-87 | `next` stays one-to-one after a delete |
| ZettleModels.RemoveCardKeepsTagsSymmetric | backend/zettle/models.py:97 | tags stay symmetric after a delete |
| ZettleModels.RemoveCardKeepsReferences | backend/zettle/models.py:74-94 | after a delete, every `parent`, `next` and `reply_to` points to a stored card |
| ZettleModels.RemoveCardConsistent | backend/zettle/models.py:74-97 | deleting a card keeps the table invariant |
| ZettleModels.AddTagPair | backend/zettle/models.py:97 | tagging a with b stores both directions; no column, parent, `next` or `reply_to` changes, and no tag is lost |
| ZettleModels.AddTagPairTags | backend/zettle/models.py:97 | the tags gained are exactly b on a and a on b: no other card gains a tag |
| ZettleModels.AddTagPairConsistent | backend/zettle/models.py:97 | adding a tag keeps the table invariant |
| ZettleModels.SameLinksConsistent | backend/zettle/models.py:74-97 | saving columns other than the self-references keeps the table invariant |
| ZettleModels.InsertConsistent | backend/zettle/models.py:74-97 | inserting a card with no successor and no tags, whose references are stored, keeps the table invariant |
| ZettleModels.RelinkKeepsNextOneToOne | backend/zettle/models.py:81-87 | setting `a.next = b` keeps `next` one-to-one when no other card has `b` as its successor |
| ZettleModels.RelinkKeepsTagsSymmetric | backend/zettle/models.py:97 | relinking `next` leaves tags symmetric |
| ZettleModels.RelinkKeepsReferences | backend/zettle/models.py:81-87 | relinking to a stored card keeps every reference stored |
| ZettleModels.RelinkConsistent | backend/zettle/models.py:81-87 | relinking keeps the table invariant when `b` has no other predecessor |
| ZettleStore.NewCard | backend/core/management/commands/create_demo_data.py:116-120 | the row `objects.create` inserts: the given uuid, author, parent and columns, with no image, document, successor or tags |
| ZettleStore.Store.LookupUser | backend/core/management/commands/create_demo_data.py:104-106 | `User.objects.get(username=...)` finds a user with that name, or fails with UserDoesNotExist when there is none |
| ZettleStore.Store.CreateUser | backend/core/management/commands/create_demo_data.py:162-164 | a new user with blank names and both flags off, under the next id; an empty username fails with EmptyUsername (`create_user`'s ValueError) and a taken one with DuplicateUsername, both changing nothing |
| ZettleStore.Store.SaveUser | backend/core/management/commands/create_demo_data.py:166-170 | exactly the names and the two flags of that user change |
| ZettleStore.Store.Create | backend/core/management/commands/create_demo_data.py:116-120 | the new row has the given columns, no successor and no tags, under the next id; a reference to a missing row fails and changes nothing |
| ZettleStore.Store.AddTag | backend/core/management/commands/create_demo_data.py:135 | the table becomes `AddTagPair` of the old one, and the invariant holds |
| ZettleStore.Store.SetNext | backend/core/management/commands/create_demo_data.py:152-153 | the save succeeds exactly when no other card already has `b` as its `next`; on success only `a.next` changes, otherwise nothing does |
| ZettleStore.Store.Put | backend/core/management/commands/create_demo_data.py:126 | `instance.save()` of a row whose references are unchanged: exactly that row is replaced, and the invariant holds |
| ZettleStore.Store.Delete | backend/zettle/models.py:74-97 | the table becomes `RemoveCard` of the old one, and the invariant holds |
| ZettleStore.Store.ImageUploadPath | backend/zettle/models.py:16-20 | returns `images/<uuid><suffix>` and fills an empty title from the file name, changing nothing else |
| ZettleStore.Store.FileUploadPath | backend/zettle/models.py:23-27 | returns `files/<uuid><suffix>` and fills an empty title from the file name, changing nothing else |
| ZettleStore.Store.AttachImage | backend/core/management/commands/create_demo_data.py:123-126 | `image.save`: the image column holds the upload path and the title is filled in when empty; nothing else changes |
| ZettleStore.Store.GetOrCreateTopic | backend/core/management/commands/create_demo_data.py:130-134 | with no topic of that title, a new one is created; with exactly one, it is returned unchanged; with several, MultipleTopics and nothing changes |
| DemoShape.AuthorName | backend/core/management/commands/create_demo_data.py:104-106 | the author name looked up: the one the caller wrote in, else the spec's `author`, else "superadmin" |
| DemoShape.DemoImageNameParts | backend/core/management/commands/create_demo_data.py:126 | the demo image's file name `demo_image_<uuid>.gif` has stem `demo_image_<uuid>` and suffix `.gif` |
| DemoShape.DemoImagePath | backend/core/management/commands/create_demo_data.py:126 | the demo image is stored at `images/<uuid>.gif` |
| DemoShape.Effective | backend/core/management/commands/create_demo_data.py:109-120 | the created columns are the spec's columns, except `reply_to` and `card_type` when the caller wrote them |
| DemoShape.ShapedStable | backend/core/management/commands/create_demo_data.py:137-154 | a finished sub-graph keeps its shape while later cards are created and tagged, and while cards outside its id range (or its head) are relinked |
| DemoShape.SequenceAuthor | backend/core/management/commands/create_demo_data.py:147-151 | with unique usernames, every sequence item's author is the head card's author itself |
| DemoShape.NoPrevStable | backend/core/management/commands/create_demo_data.py:147-154 | a card nobody points to stays so while only new cards, whose successors are new, are added |
| DemoBuild.TagFound | backend/core/management/commands/create_demo_data.py:130-135 | an existing topic card of the title is the tag; the head is tagged with it and no card is added |
| DemoBuild.TagCreated | backend/core/management/commands/create_demo_data.py:130-135 | with no topic of that title, the new topic card is the tag and the only card added |
| DemoBuild.TagOne | backend/core/management/commands/create_demo_data.py:130-135 | the head is tagged with a topic of that title, reusing the only existing one; a title with no topic card ends with exactly one; fails, with MultipleTopics and nothing changed, exactly when there are several |
| DemoBuild.AttachTags | backend/core/management/commands/create_demo_data.py:129-135 | after the loop, the head is tagged with a topic card for every title, reusing the unique existing one; no title that had exactly one topic gains another, and a title that had none gains at most one; the only cards added are topic cards named by the titles, and old cards only gain tags |
| DemoBuild.NewTopicsStep | backend/core/management/commands/create_demo_data.py:130-135 | a turn of the tag loop creates at most the one topic card its title lacked, so a title that had no topic card never ends with two |
| DemoBuild.HeadCard | backend/core/management/commands/create_demo_data.py:116-126 | the head row matches the spec's effective columns and the parent; it has the author, no successor and no tags; the demo image when asked |
| DemoBuild.InsertHead | backend/core/management/commands/create_demo_data.py:116-126 | `create` then `image.save`: the head row is inserted under the next id; a reply target that is not stored fails with nothing changed |
| DemoBuild.CreateHead | backend/core/management/commands/create_demo_data.py:104-135 | author resolution, creation and tags: the head as `HeadDone` states. It is tagged with a topic of every title, reusing the unique existing one. No title that had exactly one topic card gains another (other than through the head itself), and a title that had none ends with at most one. The only other cards added are topic cards named by its tag titles. Fails with UserDoesNotExist when no user has the author's name |
| DemoBuild.BuildBranch | backend/core/management/commands/create_demo_data.py:137-144 | each spec of the children loop (parent = head, author given) or the replies loop (`reply_to` written as the head) yields a graph of its shape with its own link, inside the new ids; each graph lies after the one before it, so no two siblings share a card |
| DemoBuild.SeqStep | backend/core/management/commands/create_demo_data.py:147-154 | creating an item and setting the previous card's `next` to it extends the chain by one |
| DemoBuild.AppendItem | backend/core/management/commands/create_demo_data.py:148-154 | one sequence turn: the item is created with type text and the head's author, and becomes the `next` of the previous card |
| DemoBuild.BuildSequence | backend/core/management/commands/create_demo_data.py:146-154 | the head's `next` is item 0, item i's `next` is item i+1, the last keeps its own link; the items are new, distinct cards, each of its spec's shape |
| DemoBuild.BuildRest | backend/core/management/commands/create_demo_data.py:137-154 | the children, replies and sequence loops together, as `RestDone` states: each sibling graph in its own id range, and all the children before all the replies before all the sequence items |
| DemoBuild.Assemble | backend/core/management/commands/create_demo_data.py:102-156 | the head as made, plus the three loops' results, is the shape `Shaped` the spec describes, whose sub-graphs never share a card (`Nested`); nothing points to the head |
| DemoBuild.CreateCard | backend/core/management/commands/create_demo_data.py:102-156 | `create_card` returns the head it created; the new cards have the spec's shape, with no two sub-graphs sharing a card, and the head reuses existing topic cards; older cards only gain tags; a missing author fails with UserDoesNotExist |
| DemoCommand.SeededIsSplit | backend/core/management/commands/create_demo_data.py:165-167 | the first and last names are the two parts `full_name.split(" ", 1)` yields |
| DemoCommand.SeededUnique | backend/core/management/commands/create_demo_data.py:161-170 | a demo entry determines its user row completely |
| DemoCommand.DemoCardsListed | backend/core/management/commands/create_demo_data.py:16-96 | the four demo cards, in order: a topic hub with two children, a link with two replies, an image with two tags, and a card with a two-step sequence; every author named for a card or a reply is a demo user |
| DemoCommand.DemoUsersCreatable | backend/core/management/commands/create_demo_data.py:8-13 | the demo users have distinct usernames and full names with a space |
| PyStr.Find | backend/core/management/commands/create_demo_data.py:165 | `str.find` of one character: -1 or the index of its first occurrence |
| PyStr.SplitOnce | backend/core/management/commands/create_demo_data.py:165 | the split exists exactly when the separator occurs; the parts joined by it give the input, and the first part has none |
| PyStr.SplitOnceJoin | backend/core/management/commands/create_demo_data.py:165 | splitting `a + sep + b` gives back `a` and `b` when `a` holds no separator |
| DemoCommand.CreateDemoUser | backend/core/management/commands/create_demo_data.py:161-170 | succeeds exactly when the username is non-empty and free and the full name has a space; then the new row is the entry's, with names split and the flags true exactly for "superadmin"; otherwise EmptyUsername or DuplicateUsername with nothing changed, or CannotUnpack with the row left unnamed |
| DemoCommand.CreateNextUser | backend/core/management/commands/create_demo_data.py:161-170 | one user-loop turn keeps `UsersMade` and fails only on entries that cannot be created |
| DemoCommand.CreateUsers | backend/core/management/commands/create_demo_data.py:161-170 | entry i becomes user `nextUser + i`, and earlier users are unchanged; never fails on creatable entries (non-empty, new and distinct usernames, full names with a space) |
| DemoCommand.CreateNextCard | backend/core/management/commands/create_demo_data.py:177-178 | one card-loop turn: earlier graphs keep their shape and the new one follows them |
| DemoCommand.CreateCards | backend/core/management/commands/create_demo_data.py:177-178 | every spec yields a graph of its shape, with no parent and its own author; the graphs lie side by side in the new ids |
| DemoCommand.Handle | backend/core/management/commands/create_demo_data.py:158-178 | on a store with no users, all demo users are created as specified; on success every demo card graph has its shape |

## Left out

- Transaction rollback: `handle` runs inside `transaction.atomic`, but here an error ends the command with the writes made so far still in place.
- Handle: does not prove that the demo cards are created without error. Doing so would need the authors the demo data names to exist, and no topic title to match two cards. The contract states the users' outcome, and the cards' shapes on success.
- CreateCard: does not bound the cards it adds. Its contract describes the cards of the built tree (whose sub-graphs never share a card) and the head's tags. It would also hold with extra cards among the new ids, for instance a second topic card for a title that already had one. `CreateHead` does state these facts for its own step: no title that had exactly one topic card gains another, a title that had none gains at most one, and the only cards added besides the head are topic cards named by its tag titles. The children, replies and sequence steps do not carry these facts up.
- CreateCard: on failure it states only the frame (cards only added, tagged and relinked) and the UserDoesNotExist case. The MultipleTopics and BrokenReference failures of nested calls are not characterised further. Its frame lets an older card gain any tag. In the source, only reused topic cards gain tags, and only new cards.
- Persistence and the ORM itself: querysets, `get_or_create` atomicity and races, the database's own checks beyond the ones listed. `create_user`'s password hashing and e-mail normalisation are left out too; the e-mail is stored as given.
- `create_user` applies NFKC normalisation to the username; here the username is stored as given. (The demo usernames are plain ASCII, which NFKC leaves unchanged.)
- Card types are limited to the five choices. Django does not check `choices` on `save()`, and a row holding any other value would print its raw value in `__str__` and `template_name`. Such rows are not modelled.
- The uuid (`uuid4`) and the `created_at`/`updated_at` timestamps are randomness and clock reads. The uuid of the card created with each id is a parameter of the store (`uuidFor`); the timestamps are not modelled.
- Image bytes and file storage: `card.image.save` is modelled through the upload path it computes and the title it may fill in. The bytes are left out. So is the storage's handling of the name: `get_valid_name` cleaning it up (spaces, unusual characters), and renaming a name that is already taken. Neither changes the demo image's name, `<uuid>.gif`.
- `content_type`, `object_id` and `content_object` (the generic reference), the model's indexes and its ordering are not modelled.
- Unicode case mapping: `str.capitalize` is modelled on ASCII; other characters are left as they are.
- Spec dictionaries are values here. `create_card` pops keys out of its `data` and writes `reply_to`, `card_type` and `author` into the nested dicts, which `card_data.copy()` (a shallow copy) does not protect. The model passes those writes as a `Written` value instead, so the lasting change to the module-level demo data is not modelled.
- A sequence item's `author` key holds a `User` object, and `User.objects.get(username=user)` compares against `str(user)`, which is the username (backend/users/models.py:16-17). The model looks the author up by username.
- `stdout` messages of `handle` are not modelled.
- The REST API, serializers, views, filters, admin, settings, factories and frontend code are not part of this model.
