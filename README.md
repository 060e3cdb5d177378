# Databrary profile, citation, validator and fold — a Dafny model

This project models four client-side pieces of the Databrary web application.

- **The party profile page** (`web/party/profile.js`):
  - the volume classifier (`getParents`, `getVolumes`) sorts a party's volumes into the login user's `individual` (ADMIN) and `collaborator` tiers, and into one `inherited` bucket per member parent;
  - the people aggregator (`getUsers`) builds `sponsors`, `databrary`, `labOnly` and `otherCollaborators`;
  - the selection linker (`unselectAll`, `clickVolume`, `clickUser`) writes the `isSelected` and `userAccess` classes across those lists.
- **The citation widget** (`web/volume/cite.js`) builds the author string from a volume's access records and picks the permalink.
- **The form-field validator** (`app/assets/directive/validator.js`) keeps server errors, client errors, tips and the `changed`/`focus` flags, and decides what is shown.
- **The fold directive** (`app/assets/javascripts/directive/fold.js`) folds and unfolds a panel, persisting its state in session storage under `'folding_' + id`.

Files and modules:

| file | module | what |
|---|---|---|
| records.dfy | `Records` | parties, links, access records, volumes, `_.find` by party id |
| sequences.dfy | `Sequences` | string order, `_.filter`, `_.sortBy` (a stable insertion sort) |
| profile_volumes.dfy | `Classify` | `getParents`, `getVolumes` (method with its loops, proved equal to `Classification`) |
| profile_users.dfy | `People` | `getUsers` |
| profile_selection.dfy | `Selection` | class `Profile`: `unselectAll`, `clickVolume`, `clickUser`, each proved equal to a state function |
| cite.dfy | `Cite` | `link`: `WriteAuthor` and `Link` (the `while (access)` loop) against `Authors` |
| validator.dfy | `Validation` | class `Validator` |
| fold.dfy | `Folding` | class `Fold` over a storage map |

Design choices:

- **Volumes are referred to by position.** Volume groups and inherited buckets hold positions in the party's volume list, not copies. The selection classes of volumes are kept per position in the `Profile` class. So a volume sitting in several buckets, or twice in one bucket, has a single `isSelected`/`userAccess` state, as the shared JavaScript object has.
- **People have slots.** The people groups are laid out as slots: sponsors, then databrary, then labOnly, then otherCollaborators. Each slot has its own mark.
- **Permission levels are integers.** `NONE = 0` and `ADMIN = 5`; the proofs only rely on `NONE < ADMIN`. An access record's `individual` level is `Option<int>`, where `None` is JavaScript's `undefined`. So `'ua' + undefined` is the badge `UA(None)`.
- **Evaluated attributes are inputs.** Attribute expressions that the code evaluates (`fold`, `forget`) are given as an optional attribute string plus its evaluated boolean. The `closed` attribute is a boolean.

## Model

| member | source | states |
|---|---|---|
| Records.FirstIndexOf | web/party/profile.js:176-178 | `_.find` by party id: none iff no record has the id, otherwise the first record holding it |
| Sequences.Filter | web/party/profile.js:20-29 | `_.filter` keeps exactly the elements satisfying the predicate and never grows the list |
| Sequences.FilterAppend | web/party/profile.js:20-29 | `_.filter` keeps input order: one more element is appended to the result exactly when it satisfies the predicate |
| Sequences.FilterCount | web/party/profile.js:20-29 | `_.filter` keeps each satisfying element as often as the input holds it, and no other element |
| Sequences.FilterIncreasing | web/party/profile.js:48-52 | what `_.filter` keeps stays in its relative order |
| Sequences.SortByPermutes | web/party/profile.js:59-61 | `_.sortBy` returns a permutation of its input |
| Sequences.SortBySorted | web/party/profile.js:59-61 | `_.sortBy` output is ordered by the key |
| Sequences.SortByStable | web/party/profile.js:213-214 | `_.sortBy` is stable: the elements with one key keep their input order |
| Classify.GetParents | web/party/profile.js:153-159 | one bucket `{p, v: []}` per member parent, in parent order |
| Classify.GetParentsMembers | web/party/profile.js:153-159 | a parent has a bucket iff it is a member; every bucket starts empty |
| Classify.PickedNext | web/party/profile.js:184-190 | one more volume is appended to a tier exactly when the login record puts it there |
| Classify.PickedCount | web/party/profile.js:184-190 | among the pushed volumes, each volume appears once when its tier is the one pushed, else never |
| Classify.TierPlaced | web/party/profile.js:184-214 | a sorted login tier holds a volume once when the volume is in that tier, else never |
| Classify.MatchCount | web/party/profile.js:194-199 | counts the records that let a parent inherit; zero iff none does |
| Classify.BucketFillNext | web/party/profile.js:193-200 | one more volume appends its entries to a bucket and changes nothing already in it |
| Classify.BucketFillWithin | web/party/profile.js:193-200 | a bucket holds only positions of volumes already visited |
| Classify.BucketFillOrdered | web/party/profile.js:193-200 | a bucket lists its volumes in volume-list order |
| Classify.BucketFillCount | web/party/profile.js:193-200 | a volume without login access enters a bucket once per matching `children` record; other volumes never do |
| Classify.PushToMatching | web/party/profile.js:195-199 | the inner loop appends the volume to exactly the buckets whose parent the record lets inherit |
| Classify.PushInherited | web/party/profile.js:194-200 | the outer loop appends the volume to each bucket once per matching record |
| Classify.BucketsPlaced | web/party/profile.js:193-200 | every filled bucket holds a volume once per record that lets its parent inherit, when the volume has no login record |
| Classify.FilledSkip | web/party/profile.js:184-191 | a volume with a login record leaves every bucket as it was |
| Classify.FilledPush | web/party/profile.js:193-201 | a volume without a login record is pushed into each bucket once per matching record |
| Classify.NetworkMarkedExactly | web/party/profile.js:176-182 | a volume gets the `network` marker iff the login user's first record on it has `children` |
| Classify.PlaceVolume | web/party/profile.js:173-201 | one volume goes to `individual` for an ADMIN login record, to `collaborator` for another login record, and to the buckets otherwise; the marker is added iff that record has `children` |
| Classify.Collate | web/party/profile.js:171-205 | the `_.each` pass computes the two unsorted tiers, the filled buckets and the `network` marker |
| Classify.GetVolumes | web/party/profile.js:161-217 | the method computes `Classification`, and the `network` marker is set on exactly the volumes whose login record has `children` |
| Classify.ClassifiedByLoginRecord | web/party/profile.js:176-200 | the first login record decides the tier: ADMIN gives `individual` once, another level gives `collaborator` once, none gives no tier but bucket entries |
| Classify.ClassificationOrder | web/party/profile.js:209-214 | both login tiers are sorted by `alias \|\| name`, and volumes with equal names keep volume order |
| Classify.ClassificationWithin | web/party/profile.js:161-217 | every group holds only positions of the party's volume list |
| People.AccessOf | web/party/profile.js:48 | `pluck('access').flatten()` holds exactly the records of the listed volumes |
| People.AccessOfAppend | web/party/profile.js:106-110 | flattening one more volume appends its records |
| People.UniqById | web/party/profile.js:48 | `uniq(filterOnId)` never grows the list and keeps only records of the input |
| People.UniqByIdOrder | web/party/profile.js:48 | `uniq` keeps its records in order of their party's first appearance |
| People.UniqByIdParties | web/party/profile.js:48 | `uniq` loses no party id and keeps no id twice |
| People.UniqByIdFirst | web/party/profile.js:48 | every kept record is the first record of its party |
| People.SponsorsGroup | web/party/profile.js:16-61 | `sponsors` is a permutation of the parents, sorted by sortname |
| People.DatabraryGroup | web/party/profile.js:20-61 | a child is in `databrary` iff its `site` is above NONE; the group is the filtered children, permuted and sorted by sortname |
| People.LabOnlyMembers | web/party/profile.js:27-61 | a child is in `labOnly` iff its `site` is NONE; the group is the filtered children, permuted and sorted by sortname |
| People.NetworkMembers | web/party/profile.js:35 | permuting the groups does not change who is in `arrayOfEverything` |
| People.NetworkIdsSorted | web/party/profile.js:35 | sorting the groups does not change the party ids the filter compares against |
| People.OtherCollaborators | web/party/profile.js:35-52 | a party id is among `otherCollaborators` iff it holds a record on an `individual` volume, is not the login user and is in no network group; ids are distinct; each entry is its party's first record; the list is sorted by sortname |
| People.OtherCollaboratorsOrder | web/party/profile.js:48-61 | among equal sortnames, `otherCollaborators` keeps the unsorted list's order, which is the order in which the parties first hold a record on the `individual` volumes |
| Selection.UnselectedIdempotent | web/party/profile.js:66-99 | `unselectAll` twice is `unselectAll` once |
| Selection.PersonAfterConcat | web/party/profile.js:109-125 | processing two runs of records is processing their concatenation |
| Selection.PersonAfterKept | web/party/profile.js:111-118 | a person holding none of the records keeps their `userAccess` |
| Selection.PersonAfterLastHeld | web/party/profile.js:111-118 | a person's `userAccess` comes from the last record they hold |
| Selection.PersonAfterLastWins | web/party/profile.js:111-118 | a person's `isSelected` is decided by the last record alone; `userAccess` comes from the last record that person holds, or is kept when there is none |
| Selection.ClickVolumeOutcome | web/party/profile.js:101-127 | after `clickVolume`: expanded, the clicked item `volumeClicked` and other items cleared, volume badges untouched, persons `userSelected` iff they hold the last processed record, and badges from each person's last record |
| Selection.ClickVolumeReplay | web/party/profile.js:101-127 | clicking the same item again gives the same state |
| Selection.VolumeAfterTag | web/party/profile.js:136-143 | a volume is `volumeSelected` iff one of its records is the user's, and keeps its tag otherwise |
| Selection.VolumeAfterKept | web/party/profile.js:136-143 | with no record granting the user a truthy level, the volume keeps its badge |
| Selection.VolumeAfterLastGrant | web/party/profile.js:136-143 | the badge comes from the last record granting the user a truthy level |
| Selection.VolumeAfterOutcome | web/party/profile.js:136-143 | a volume is `volumeSelected` iff one of its records is the user's; its badge comes from the last such record with a truthy level, and is kept when there is none |
| Selection.VolumeAfterIdempotent | web/party/profile.js:145-150 | visiting a volume twice (through several buckets) is visiting it once |
| Selection.ClickUserOutcome | web/party/profile.js:130-151 | after `clickUser`: expanded, the person `userClicked` and everyone else cleared, person badges untouched, and listed volumes selected iff the user holds a record on them |
| Selection.ClickUserReplay | web/party/profile.js:130-151 | clicking the same person again gives the same state |
| Selection.Profile.constructor | web/party/profile.js:220-223 | the page holds `Classification`, `NetworkMarked` and `GetUsers` drawn from the sorted `individual` tier; nothing is selected |
| Selection.Profile.ClearVolumes | web/party/profile.js:70-87 | `isSelected` is emptied on exactly the listed volumes; badges are kept |
| Selection.Profile.ClearPeople | web/party/profile.js:91-97 | `isSelected` is emptied on every person; badges are kept |
| Selection.Profile.UnselectAll | web/party/profile.js:66-99 | the new state is `Unselected` of the old one |
| Selection.Profile.MarkPeople | web/party/profile.js:111-123 | one record applied to every person slot |
| Selection.Profile.MarkPeopleFor | web/party/profile.js:110-124 | a volume's records applied in order to every slot |
| Selection.Profile.ClickVolume | web/party/profile.js:101-127 | the new state is `ClickVolumeState` of the old one |
| Selection.Profile.SelectVolume | web/party/profile.js:136-143 | `compareFunction` on one volume changes only that volume, as `VolumeAfter` |
| Selection.Profile.SelectVolumes | web/party/profile.js:145-149 | `compareFunction` over a list changes exactly the listed volumes |
| Selection.Profile.ClickUser | web/party/profile.js:130-151 | the new state is `ClickUserState` of the old one |
| Cite.Run | web/volume/cite.js:17-20 | the maximal run of records at ADMIN or above starting at a position |
| Cite.Cited | web/volume/cite.js:10-20 | the cited records are a prefix of the records: the first whatever its level, then the maximal ADMIN run; empty iff there are no records |
| Cite.SplitPieces | web/volume/cite.js:28 | no piece of `split(' ')` contains a space |
| Cite.JoinSplit | web/volume/cite.js:28 | joining the pieces of a split gives back the name |
| Cite.SplitJoin | web/volume/cite.js:28 | splitting a join of space-free words gives back the words |
| Cite.RenderWords | web/volume/cite.js:28-34 | a one-word name is written as is; otherwise the last word, `", "`, then the initials of the earlier words |
| Cite.AuthorsTextTail | web/volume/cite.js:22-26 | once something is written, each later author is preceded by `", "`, and the last by `",  & "` |
| Cite.AuthorsTextStep | web/volume/cite.js:17-36 | one pass of the loop writes the author at the current position and moves on by one |
| Cite.AuthorsTextStart | web/volume/cite.js:17-37 | a list whose first author is non-empty reads as that author, then the later ones with their separators |
| Cite.AuthorsTextEmptyFirst | web/volume/cite.js:22-26 | an author written as `''` leaves the text empty, so the next author gets no separator |
| Cite.AuthorsListing | web/volume/cite.js:10-39 | no records give `''`; a non-empty first author is followed by the separated later ones; a first author written as `''` leaves the list of the later authors alone |
| Cite.WriteInitials | web/volume/cite.js:12-15 | `parts.forEach(initial)` appends exactly the initials of the non-empty pieces |
| Cite.WriteAuthor | web/volume/cite.js:28-34 | one author is appended as exactly `Render(name)` |
| Cite.WriteNext | web/volume/cite.js:22-34 | the loop body appends the separator `Step` calls for, then `Render(name)` |
| Cite.Link | web/volume/cite.js:6-41 | the loop computes `Authors(access)`; the permalink is `'doi:' + doi` for a non-empty doi, else the absolute URL |
| Validation.SetServerResponse | app/assets/directive/validator.js:83-85 | sets only the `serverResponse` key, and only when there is a control |
| Validation.PrefixedKeepsPrefix | app/assets/directive/validator.js:111-115 | appending prefixed messages to a list whose messages all start with the prefix keeps that so |
| Validation.Prefixed | app/assets/directive/validator.js:113-115 | every message gets the prefix, in order |
| Validation.Validator.constructor | app/assets/directive/validator.js:5-21 | the prefix is taken from the label; flags and lists start cleared, so every message trivially starts with the prefix |
| Validation.Validator.IconClasses | app/assets/directive/validator.js:39-57 | `[]` without a control; `show` iff dirty, then exactly one of `valid`/`invalid` by `$valid` |
| Validation.Validator.ClientDisplayExclusive | app/assets/directive/validator.js:61-75 | client errors and tips are never shown together, and nothing client-side shows without focus |
| Validation.Validator.FocusOn | app/assets/directive/validator.js:23-25 | sets `focus` and nothing else; every message still starts with the prefix |
| Validation.Validator.FocusOff | app/assets/directive/validator.js:27-31 | drops `focus` unless the element has input focus; every message still starts with the prefix |
| Validation.Validator.ChangeWatch | app/assets/directive/validator.js:79-86 | `changed` is set and `serverResponse` is valid again; server errors are then hidden; every message still starts with the prefix |
| Validation.Validator.Server | app/assets/directive/validator.js:88-116 | unless `replace` is `false`, errors, `changed` and the verdict are reset; non-empty data then marks the field invalid and appends the prefixed messages in order; every message still starts with the prefix |
| Validation.Validator.Client | app/assets/directive/validator.js:118-153 | a truthy `replace` clears errors and tips; the data's errors and tips (strings wrapped, arrays as errors) are appended prefixed; every message still starts with the prefix |
| Validation.Validator.AppendPrefixed | app/assets/directive/validator.js:113-115 | the push loop appends `Prefixed(prefix, items)`, so a list whose messages start with the prefix stays so |
| Folding.ReadFolding | app/assets/javascripts/directive/fold.js:79-85 | nothing when forgetful or nothing stored, else the stored value |
| Folding.WriteFolding | app/assets/javascripts/directive/fold.js:73-77 | stores under the key unless forgetful, and touches no other key |
| Folding.FoldingRoundTrip | app/assets/javascripts/directive/fold.js:73-100 | what is written is read back, and restoring after a write gives the written state |
| Folding.ToggleTarget | app/assets/javascripts/directive/fold.js:56-65 | unfold iff the state is an explicit false or the panel is folded |
| Folding.Fold.constructor | app/assets/javascripts/directive/fold.js:104-111 | enabled iff the `fold` attribute is on; folded as stored, or as `closed` when nothing is stored; the `foldable`, `folder` and `fold` classes are on exactly when enabled, `always_folded` exactly when not |
| Folding.Fold.SetFolding | app/assets/javascripts/directive/fold.js:73-77 | writes `folded` to storage unless forgetful |
| Folding.Fold.Fold | app/assets/javascripts/directive/fold.js:42-48 | folded, the class present iff foldable, and `true` stored when not forgetful |
| Folding.Fold.Unfold | app/assets/javascripts/directive/fold.js:50-54 | unfolded, the class removed, and `false` stored when not forgetful |
| Folding.Fold.ToggleFold | app/assets/javascripts/directive/fold.js:56-65 | nothing when not foldable; otherwise folded becomes `ToggleTarget` and is stored; the `foldable`, `always_folded`, `folder` and `fold` classes never change |
| Folding.Fold.RestoreFolding | app/assets/javascripts/directive/fold.js:87-100 | folded becomes the stored value, or `closed` when none |
| Folding.Fold.EnableFold | app/assets/javascripts/directive/fold.js:19-27 | foldable, its classes added, and the state restored |
| Folding.Fold.DisableFold | app/assets/javascripts/directive/fold.js:29-36 | not foldable, the `foldable`/`folded`/`folder` classes removed, `always_folded` added |

## Left out

- DOM and jQuery work is left out: element lookup, event binding, `addClass`/`removeClass` on elements, and the keypress listener (validator.js:16, 23-37, 81, 92, 103). Element classes in the fold directive are kept as booleans on the `Fold` object.
- Angular dependency injection, directive configuration objects and `$scope.$eval` are left out. Evaluated attributes are inputs, and `$location.absUrl()` is the parameter `absUrl` of `Cite.Link`.
- `new Date()` in cite.js:40 and `display.title`/`$location` in profile.js:225-227 are left out.
- `Sequences.SortBy` orders strings by character, which stands for JavaScript's UTF-16 code-unit order.
- `Cite.Initials` takes a piece's first character where cite.js:14 takes `charAt(0)`, one UTF-16 code unit. So a name piece starting outside the Basic Multilingual Plane gets its whole character as the initial, where the source writes a lone surrogate.
- Lodash internals are replaced as follows: `_.sortBy` by a stable insertion sort, `uniq(iteratee)` by first-occurrence dedup, and `flatten` by concatenation.
- A volume without an `access` array is not modelled; the model always has a record list. profile.js throws there, reading `value.access.length` (profile.js:137). cite.js:10 guards with `volume.access &&` and writes `''`, which `Cite.Link` with an empty record list also yields.
- `Classify.Collate` and `Classify.GetVolumes` return the `network` marker as the set of volume positions it is written on, instead of writing a field of the volume.
- Object identity between lists is reduced to positions and slots. An `otherCollaborators` entry is the same object as a volume's access record, and a sponsor is the same object as an inherited bucket's `p`. Classes written on those objects are modelled on the person slot only.
- `Selection.Profile.UnselectAll` leaves `userAccess` as it was, as the source does. So badges survive a new click unless overwritten.
- `otherCollaborators` is drawn only from the `individual` tier, as the source does.
- `Folding.Fold.DisableFold` takes the `fold` class off the `[folder]` descendants (fold.js:34), not off the `[folded]` ones that `enableFold` gave it to. The model keeps this: `foldClass` stays as it was.
- `Validation.Validator.ClientDisplayExclusive` follows directly from the definitions of the show predicates; it documents their relation rather than adding proof work.
- Permission levels other than `NONE` and `ADMIN` are plain integers. The constants' full enumeration is not part of this model.
- web/volume/metadata.js and app/assets/javascripts/view/loginView.js are not part of this model.
