# Hostel admin dashboard: a Dafny model

This project models the core of the hostel management admin dashboard, a
React and TypeScript front end, and proves properties of the model.

- **Entity store (`db.ts`).** An in-memory registry of collections, one per
  entity key, mirrored to browser storage under `hm_admin_<key>`. It is the
  class `Db.EntityStore`. Its fields are the registry, the storage and
  whether the storage accepts writes. Each operation is a method whose
  ensures give the whole new registry and storage in terms of the old ones.
- **Hostel service (`hostel.service.ts`).** The store bound to the key
  `hostels` and seeded from the static hostel data before every operation.
  It is the class `HostelService.HostelService`. An invariant says every
  stored record has the shape of a hostel, which is what the source's
  `list<Hostel>` cast assumes. Search, city filter and capacity total are
  functions over the listing, with lemmas about them.
- **Data table (`DataTable.tsx`).** Client-side pagination, the "Showing X
  to Y of N" label, the Previous/Next buttons and the sort-header state. It
  is the class `DataTable.DataTable` over specification functions. These
  are proved to split the rows into pages that cover the data exactly once.
- **List pages.** Accounts, Tenants, Employees, Vendors and Alerts each have
  filters that an empty value switches off. They are chains of switchable
  filters, proved equal to one reference predicate, with membership,
  order-preservation and query-case lemmas.
  - The accounts summary is proved to count only the listed rows.
  - The alert cards are proved to count all alerts whatever the filters.
  - On the Tenants page the room is matched against the lowercased query
    without lowering the room, so a room with capital letters is never found
    by its room text. `Tenants.RoomMatchIsCaseSensitive` shows this on
    concrete values.
- **Settings form (`SettingsForm.tsx`).** The class `Settings.SettingsForm`.
  It covers the merge of a stored object over the defaults on mount,
  permission toggles and saving under `hm_admin_settings`.
- **Hostel edit page (`HostelEdit.tsx`).**
  - The zod schema, with the source's error messages.
  - The phone pattern `^\+?[1-9]\d{1,14}$`, which follows the digit limit of
    ITU-T Recommendation E.164.
  - The load effect and the submit handler. They are the class
    `HostelEdit.HostelEditPage`, which calls the hostel service.
- **Route table (`routePaths.ts`) and the build's `manualChunks` classifier
  (`vite.config.ts`).** The `if` chain is proved equal to a first-match rule
  table.

Numbers are modelled as integers. Strings are `seq<char>`, and
`toLowerCase` is modelled for ASCII letters. A JSON record is a
`map<string, Value>`. A collection maps the property key of each id
(`String(id)`) to its record. The static mock data, the browser storage
and whether writes succeed are parameters of the model.

## Model

| member | source | states |
|---|---|---|
| Common.NumberAndStringIdsShareKey | src/admin/types/common.ts:6 | the number 3 and the string "3" address the same record |
| Common.NumericIdKeyInjective | src/admin/types/common.ts:6 | distinct numeric ids address distinct records |
| Common.IdOf | src/admin/types/common.ts:6 | the id read from a record is the value of its `id` field |
| Text.ToLowerIdempotent | src/admin/services/hostel.service.ts:84 | lowering a lowered string changes nothing |
| Text.BlankIffAllWhitespace | src/admin/services/hostel.service.ts:82 | `!query.trim()` holds exactly when every character is whitespace |
| Text.LowerKeepsWhitespace | src/admin/services/hostel.service.ts:82-84 | lowering keeps a blank query blank and a non-blank one non-blank |
| Text.ContainsIffOccurs | src/admin/services/hostel.service.ts:87-89 | `includes` holds exactly when the needle occurs at some index |
| Text.ContainsTransitive | vite.config.ts:53 | a string holding `t` holds every substring of `t` |
| Text.NatToStringInjective | src/admin/services/db.ts:78 | distinct naturals have distinct decimal texts |
| Text.Utf16Length | src/admin/pages/Hostel/HostelEdit.tsx:19-23 | a string's `length` counts UTF-16 code units: between its number of characters and twice that |
| Text.Utf16LengthOfBmp | src/admin/pages/Hostel/HostelEdit.tsx:19-23 | on text within the Basic Multilingual Plane, `length` is the number of characters |
| Text.Utf16LengthOfEmoji | src/admin/pages/Hostel/HostelEdit.tsx:19 | a character above U+FFFF counts as two code units |
| Text.IntToStringInjective | src/admin/services/db.ts:78 | distinct integers have distinct decimal texts, so distinct numeric ids use distinct keys |
| Seqs.Filter | src/admin/services/hostel.service.ts:85-90 | the result keeps only matching elements and is no longer than the input |
| Seqs.FilterMembership | src/admin/services/hostel.service.ts:85-90 | an element is kept exactly when it occurs in the input and matches |
| Seqs.FilterIsSubsequence | src/admin/services/hostel.service.ts:85-90 | the result keeps the input order |
| Seqs.SumPermutation | src/admin/services/hostel.service.ts:111-114 | a `reduce` sum does not depend on the order of the elements |
| Db.SlotNameInjective | src/admin/services/db.ts:22 | distinct entity keys use distinct storage slots |
| Db.PersistThenLoad | src/admin/services/db.ts:40-63 | a successful save is what the next load of that key reads |
| Db.PersistLeavesOtherKeys | src/admin/services/db.ts:56-63 | saving one key leaves what every other key loads unchanged |
| Db.InsertAllLastWins | src/admin/services/db.ts:77-79 | with duplicate ids in the seed data, the last item with an id is stored under it |
| Db.InsertAllElsewhere | src/admin/services/db.ts:77-79 | keys no seed item addresses keep their old entry or stay absent |
| Db.InsertAllKeys | src/admin/services/db.ts:77-79 | every key after seeding was there before or is the key of a seed item's id |
| Db.InsertAllValues | src/admin/services/db.ts:77-79 | every record after seeding was there before or is one of the seed items |
| Db.SeedFirstRunWins | src/admin/services/db.ts:76 | once a collection is non-empty, seeding it again changes nothing |
| Db.ShallowMerge | src/admin/services/db.ts:134 | `{ ...existing, ...updates }` has both key sets, the update's values where given and the old values elsewhere |
| Db.NumericIds | src/admin/services/db.ts:175-177 | exactly the numeric `id` values of the items; string ids are ignored |
| Db.Max | src/admin/services/db.ts:179 | `Math.max` is an element of the list and bounds every element |
| Db.NextIdIsUnused | src/admin/services/db.ts:170-180 | the next id differs from every numeric id in the collection |
| Db.NextIdIsUnique | src/admin/services/db.ts:170-180 | the next-id specification determines a single value |
| Db.InsertAtNextIdGrows | src/admin/services/db.ts:170-180 | in a collection keyed by its numeric ids, inserting at the next id adds a record |
| Db.ObjectValues | src/admin/services/db.ts:91 | `Object.values` lists each record once, in some order of the keys |
| Db.EnumerationsPermute | src/admin/services/db.ts:91 | any two listings of a collection are permutations of each other |
| Db.NextIdOfListing | src/admin/services/db.ts:172-179 | the computed next id meets the specification whatever order the records are listed in |
| Db.SlotNamesInjective | src/admin/services/db.ts:58 | no two entity keys share a slot |
| Db.SyncThenReload | src/admin/services/db.ts:185-187 | after `syncAll`, a fresh registry loads every collection back as it was |
| Db.SyncStep | src/admin/services/db.ts:186 | saving one more key extends the synced storage by that key's snapshot |
| Db.EntityStore.constructor | src/admin/services/db.ts:19 | the registry starts empty over the persisted storage |
| Db.EntityStore.InitStore | src/admin/services/db.ts:28-34 | an absent key is registered with whatever its slot loads; a registered key is never replaced |
| Db.EntityStore.LoadFromStorage | src/admin/services/db.ts:40-50 | a readable snapshot replaces the collection; an empty or unparsable slot changes nothing |
| Db.EntityStore.SaveToStorage | src/admin/services/db.ts:56-63 | the slot holds the collection after a successful write; a failed write changes nothing |
| Db.EntityStore.SeedFromJson | src/admin/services/db.ts:70-82 | the data is inserted and saved only when the collection is empty |
| Db.EntityStore.List | src/admin/services/db.ts:89-92 | the values are those of an enumeration of the initialized collection |
| Db.EntityStore.GetById | src/admin/services/db.ts:100-103 | the record under the id's key, or none |
| Db.EntityStore.Create | src/admin/services/db.ts:111-116 | the item is stored under its id, overwriting, then saved, and returned |
| Db.EntityStore.Update | src/admin/services/db.ts:125-138 | a present record is shallow-merged and saved; an absent id returns nothing and writes nothing |
| Db.EntityStore.Remove | src/admin/services/db.ts:146-153 | a present record is deleted and saved, returning true; otherwise false and nothing written |
| Db.EntityStore.Clear | src/admin/services/db.ts:159-163 | the collection becomes empty and is saved |
| Db.EntityStore.GetNextId | src/admin/services/db.ts:170-180 | the result is one more than the largest numeric id, or 1 when there is none |
| Db.EntityStore.SyncAll | src/admin/services/db.ts:185-187 | every registered collection is written to its slot |
| HostelTypes.ToRecord | src/admin/types/hostel.ts:11-20 | a hostel's record carries its id and only hostel fields |
| HostelTypes.RecordRoundTrip | src/admin/types/hostel.ts:11-20 | writing a hostel as a record and reading it back gives the hostel |
| HostelTypes.RecordRoundTripBack | src/admin/types/hostel.ts:11-20 | a hostel-shaped record with no extra fields is the record of the hostel it reads as |
| HostelTypes.WithId | src/admin/services/hostel.service.ts:44-47 | `{ id, ...data }` has the new id and exactly the form fields |
| HostelTypes.NewHostelRecordIsHostel | src/admin/services/hostel.service.ts:44-47 | the created record is hostel-shaped and reads as that hostel |
| HostelTypes.PatchRecord | src/admin/types/hostel.ts:25-33 | a partial form never carries an `id` |
| HostelTypes.PatchFields | src/admin/types/hostel.ts:25-33 | each property of the partial record is the matching field of the patch |
| HostelTypes.PatchedRecordIsPatchedHostel | src/admin/services/db.ts:134 | merging a partial form into a hostel record gives the patched hostel, with its id kept |
| HostelService.SeedRecords | src/admin/services/hostel.service.ts:14 | every seed record has an id |
| HostelService.SeedRecordsAreHostels | src/admin/services/hostel.service.ts:14 | every seed record is hostel-shaped |
| HostelService.SeedingKeepsHostels | src/admin/services/hostel.service.ts:13-15 | seeding keeps a collection of hostels a collection of hostels |
| HostelService.SearchBlankReturnsAll | src/admin/services/hostel.service.ts:82 | a blank query returns the whole listing |
| HostelService.SearchMembership | src/admin/services/hostel.service.ts:84-90 | otherwise a hostel is kept exactly when its lowered name, city or manager contains the lowered query |
| HostelService.SearchKeepsOrder | src/admin/services/hostel.service.ts:85-90 | the search result keeps the listing order |
| HostelService.SearchIgnoresQueryCase | src/admin/services/hostel.service.ts:84 | the case of the query does not matter |
| HostelService.ByCityMembership | src/admin/services/hostel.service.ts:98-103 | exactly the hostels whose city equals the argument up to case, in listing order |
| HostelService.TotalCapacityOfNone | src/admin/services/hostel.service.ts:111-114 | without hostels the total is 0 |
| HostelService.TotalCapacityBounds | src/admin/services/hostel.service.ts:109-115 | within the form's limits each hostel adds between 1 and 5000 rooms |
| HostelService.CapacityBounds | src/admin/services/hostel.service.ts:112 | floors times rooms lies between 1 and 5000 within those limits |
| HostelService.TotalCapacityByKeys | src/admin/services/hostel.service.ts:111-114 | the total over a listing is the sum of the capacities of the listed keys |
| HostelService.TotalCapacityIgnoresListingOrder | src/admin/services/hostel.service.ts:109-115 | the total does not depend on the listing order |
| HostelService.HostelService.constructor | src/admin/services/hostel.service.ts:7-10 | the service works on the given store and seed data; given a store whose hostel collection holds only hostels, the service invariant holds |
| HostelService.FreshStoreIsTyped | src/admin/services/db.ts:28-46 | a store with no registered hostels and no readable hostel snapshot starts from an empty collection, which holds only hostels |
| HostelService.HostelService.Init | src/admin/services/hostel.service.ts:13-15 | the hostel collection is seeded if empty, and stays typed |
| HostelService.HostelService.GetAllHostels | src/admin/services/hostel.service.ts:21-24 | the hostels of an enumeration of the seeded collection |
| HostelService.HostelService.GetHostelById | src/admin/services/hostel.service.ts:31-34 | the hostel under the id's key after seeding, or none |
| HostelService.HostelService.CreateHostel | src/admin/services/hostel.service.ts:41-49 | the new hostel has the next numeric id and the form's fields, and is stored and saved |
| HostelService.HostelService.UpdateHostel | src/admin/services/hostel.service.ts:57-63 | a present hostel is patched, stored and returned; an absent one gives none |
| HostelService.HostelService.DeleteHostel | src/admin/services/hostel.service.ts:70-73 | a present hostel is removed and saved; an absent one gives false |
| HostelService.HostelService.SearchHostels | src/admin/services/hostel.service.ts:80-91 | the search over a listing of the seeded collection |
| HostelService.HostelService.GetHostelsByCity | src/admin/services/hostel.service.ts:98-103 | the city filter over a listing of the seeded collection |
| HostelService.HostelService.GetTotalCapacity | src/admin/services/hostel.service.ts:109-115 | the capacity total over a listing of the seeded collection |
| DataTable.TotalPages | src/admin/components/DataTable.tsx:83 | `Math.ceil(len / pageSize)`: the pages hold every row, with no empty last page, and zero pages only when there are no rows |
| DataTable.PageStart | src/admin/components/DataTable.tsx:78 | the first index of a page is never negative |
| DataTable.PageRows | src/admin/components/DataTable.tsx:77-81 | at most `pageSize` consecutive rows from the page start, in order, none past the end |
| DataTable.RowOnItsPage | src/admin/components/DataTable.tsx:77-83 | row `i` is on page `i / pageSize + 1`, which exists, at position `i % pageSize` |
| DataTable.FirstPagesArePrefix | src/admin/components/DataTable.tsx:77-81 | pages 1 to n together are the first n times pageSize rows |
| DataTable.PagesCoverData | src/admin/components/DataTable.tsx:77-83 | pages 1 to totalPages together are exactly the data |
| DataTable.RangeLabelDescribesRows | src/admin/components/DataTable.tsx:222-223 | the label names the 1-based positions of exactly the rows shown |
| DataTable.RenderCases | src/admin/components/DataTable.tsx:86-103 | loading shows the skeleton, no data shows the empty state, and the bar shows only when there is more than one page |
| DataTable.NextDirection | src/admin/components/DataTable.tsx:69-70 | the direction becomes descending only when the same key was ascending |
| DataTable.SortClicksAlternate | src/admin/components/DataTable.tsx:68-74 | repeated clicks on one header alternate; a new header starts ascending |
| DataTable.DataTable.constructor | src/admin/components/DataTable.tsx:55-65 | the page size defaults to 10 when none is given; the table starts on page 1, with no sort key, ascending |
| DataTable.DataTable.SetProps | src/admin/components/DataTable.tsx:52-62 | new props replace the rows and the loading flag and keep the page |
| DataTable.DataTable.HandleSort | src/admin/components/DataTable.tsx:68-74 | the sort state moves and the parent is told; the rows and the view do not change |
| DataTable.DataTable.ClickPrevious | src/admin/components/DataTable.tsx:230-231 | an enabled click moves to `max(1, p - 1)`; the page never grows |
| DataTable.DataTable.ClickNext | src/admin/components/DataTable.tsx:243-244 | an enabled click moves to `min(totalPages, p + 1)` and never passes the last page |
| Accounts.FilteredDataIsListed | src/admin/pages/Accounts/AccountsList.tsx:25-49 | the three switchable filters are one filter by the reference predicate |
| Accounts.FilteredDataMembership | src/admin/pages/Accounts/AccountsList.tsx:25-49 | a transaction is listed exactly when it is in the data and passes every active filter, in data order |
| Accounts.SearchIgnoresQueryCase | src/admin/pages/Accounts/AccountsList.tsx:29-35 | the case of the query does not matter |
| Accounts.NoFiltersShowsAll | src/admin/pages/Accounts/AccountsList.tsx:25-49 | with every filter empty, every transaction is listed |
| Accounts.Summarize | src/admin/pages/Accounts/AccountsList.tsx:52-70 | net is income minus the shown expenses |
| Accounts.IncomeIsRentPlusDeposit | src/admin/pages/Accounts/AccountsList.tsx:53-55 | income is the Rent total plus the Deposit total |
| Accounts.RejectedRowDoesNotCount | src/admin/pages/Accounts/AccountsList.tsx:52-70 | a transaction the filters reject does not move the summary |
| Accounts.OtherTypesDoNotCount | src/admin/pages/Accounts/AccountsList.tsx:52-70 | a transaction of any other type moves none of the three figures |
| Tenants.FilteredDataIsListed | src/admin/pages/People/TenantsList.tsx:38-58 | search and status filters are one filter by the reference predicate |
| Tenants.FilteredDataMembership | src/admin/pages/People/TenantsList.tsx:38-58 | a tenant is listed exactly when it is in the data and passes both active filters, in data order |
| Tenants.SearchIgnoresQueryCase | src/admin/pages/People/TenantsList.tsx:42-50 | the case of the query does not matter |
| Tenants.RoomMatchIsCaseSensitive | src/admin/pages/People/TenantsList.tsx:48 | room "B12" is found neither by "B12" nor by "b12", while room "b12" is found by "B12" |
| Employees.FilteredDataIsListed | src/admin/pages/People/EmployeesList.tsx:35-55 | search and status filters are one filter by the reference predicate |
| Employees.FilteredDataMembership | src/admin/pages/People/EmployeesList.tsx:35-55 | an employee is listed exactly when it is in the data and passes both active filters, in data order |
| Employees.SearchIgnoresQueryCase | src/admin/pages/People/EmployeesList.tsx:39-47 | the case of the query does not matter |
| Vendors.FilteredDataIsListed | src/admin/pages/Vendor/VendorList.tsx:34-51 | search and status filters are one filter by the reference predicate |
| Vendors.FilteredDataMembership | src/admin/pages/Vendor/VendorList.tsx:34-51 | a vendor is listed exactly when it is in the data and passes both active filters, in data order |
| Vendors.SearchIgnoresQueryCase | src/admin/pages/Vendor/VendorList.tsx:37-44 | the case of the query does not matter |
| Alerts.FilteredDataIsListed | src/admin/pages/Alerts/AlertsList.tsx:23-35 | severity and status filters are one filter by the reference predicate |
| Alerts.FilteredDataMembership | src/admin/pages/Alerts/AlertsList.tsx:23-35 | an alert is listed exactly when it is in the data and passes both active filters, in data order |
| Alerts.CountsAddUp | src/admin/pages/Alerts/AlertsList.tsx:129-141 | the three cards add up to the alerts of a known severity, never more than all alerts |
| Alerts.CountsCoverKnownSeverities | src/admin/pages/Alerts/AlertsList.tsx:129-141 | when every severity is known, the cards add up to all alerts |
| Alerts.SeverityFilterAgreesWithCard | src/admin/pages/Alerts/AlertsList.tsx:23-35 | a severity filter lists as many alerts as its card shows, and no more when a status is chosen too |
| Settings.Set | src/admin/pages/Settings/SettingsForm.tsx:87-90 | `{ ...p, [key]: b }` sets one switch and keeps the others |
| Settings.PermissionsExtensional | src/admin/pages/Settings/SettingsForm.tsx:14-21 | two permission sets whose switches all agree are equal |
| Settings.Toggle | src/admin/pages/Settings/SettingsForm.tsx:84-92 | one switch is flipped; the other switches and the profile fields are kept |
| Settings.ToggleTwice | src/admin/pages/Settings/SettingsForm.tsx:84-92 | toggling a switch twice restores the settings |
| Settings.TogglesCommute | src/admin/pages/Settings/SettingsForm.tsx:84-92 | two toggles give the same settings in either order |
| Settings.Merge | src/admin/pages/Settings/SettingsForm.tsx:56 | `{ ...prev, ...data }`: each stored property replaces the current one |
| Settings.NothingStoredKeepsDefaults | src/admin/pages/Settings/SettingsForm.tsx:51-61 | with nothing stored or unparsable text, the defaults stay, all permissions on |
| Settings.SaveThenLoad | src/admin/pages/Settings/SettingsForm.tsx:56-68 | loading what was saved restores exactly the saved settings |
| Settings.MergeIdempotent | src/admin/pages/Settings/SettingsForm.tsx:56 | merging the same stored object twice is merging it once |
| Settings.SettingsKeyBesideStoreSlots | src/admin/pages/Settings/SettingsForm.tsx:24 | the settings key lies in the store's `hm_admin_` namespace and is no other entity's slot |
| Settings.SettingsForm.constructor | src/admin/pages/Settings/SettingsForm.tsx:31-48 | the form starts with the defaults and a closed toast |
| Settings.SettingsForm.LoadOnMount | src/admin/pages/Settings/SettingsForm.tsx:51-61 | the settings become the stored object merged over them, if it parses |
| Settings.SettingsForm.SetName | src/admin/pages/Settings/SettingsForm.tsx:119-121 | only the name changes |
| Settings.SettingsForm.SetEmail | src/admin/pages/Settings/SettingsForm.tsx:134-136 | only the email changes |
| Settings.SettingsForm.SetPassword | src/admin/pages/Settings/SettingsForm.tsx:151 | only the password changes |
| Settings.SettingsForm.TogglePermission | src/admin/pages/Settings/SettingsForm.tsx:84-92 | the settings are toggled at the key |
| Settings.SettingsForm.HandleSave | src/admin/pages/Settings/SettingsForm.tsx:64-81 | a successful write stores the settings and shows success, and the next load restores them; a failed one writes nothing and shows the error |
| HostelEdit.PhoneShape | src/admin/pages/Hostel/HostelEdit.tsx:24 | the pattern accepts exactly 2 to 15 digits, the first from 1 to 9, with or without one leading `+` |
| HostelEdit.PhoneLength | src/admin/pages/Hostel/HostelEdit.tsx:24 | an accepted phone has 2 to 16 characters |
| HostelEdit.PhoneExamples | src/admin/pages/Hostel/HostelEdit.tsx:24 | "+14155552671" and "31" pass; "0123", "7", "+", "++12" and a 16-digit number fail |
| HostelEdit.Check | src/admin/pages/Hostel/HostelEdit.tsx:18-26 | a check reports one issue when it fails and none when it holds |
| HostelEdit.SchemaErrors | src/admin/pages/Hostel/HostelEdit.tsx:18-26 | no issues exactly when every constraint holds, with minimum lengths counted in UTF-16 code units |
| HostelEdit.EmojiNameAccepted | src/admin/pages/Hostel/HostelEdit.tsx:19 | a name of one emoji and one letter meets the three-unit minimum |
| HostelEdit.NotesAreOptional | src/admin/pages/Hostel/HostelEdit.tsx:25 | the notes never decide acceptance |
| HostelEdit.AcceptedCapacity | src/admin/pages/Hostel/HostelEdit.tsx:21-22 | an accepted hostel has between 1 and 5000 rooms |
| HostelEdit.ResetValues | src/admin/pages/Hostel/HostelEdit.tsx:56-64 | the form holds the hostel's fields, with notes always present |
| HostelEdit.FullPatchReplacesForm | src/admin/pages/Hostel/HostelEdit.tsx:80 | submitting a form replaces every field and keeps the id |
| HostelEdit.UntouchedSubmit | src/admin/pages/Hostel/HostelEdit.tsx:56-80 | submitting the loaded form untouched gives back the hostel, absent notes becoming empty notes |
| HostelEdit.LoadedFormAccepted | src/admin/pages/Hostel/HostelEdit.tsx:56-64 | a hostel that passes the schema loads as a form that passes it |
| HostelEdit.HostelEditPage.constructor | src/admin/pages/Hostel/HostelEdit.tsx:34-39 | the page starts loading, with a closed toast and an empty form; on a valid service, the page invariant holds |
| HostelEdit.HostelEditPage.Load | src/admin/pages/Hostel/HostelEdit.tsx:51-74 | no id: nothing happens; found: the form is reset and loading ends; missing: the not-found toast, still loading |
| HostelEdit.HostelEditPage.Submit | src/admin/pages/Hostel/HostelEdit.tsx:76-99 | a rejected form only shows its issues; an accepted one is merged into the stored hostel and the collection is written to storage, with the success or failure toast |
| Routes.HostelEdit | src/admin/routes/routePaths.ts:14 | every edit path starts with `/admin/hostel/` |
| Routes.EveryRouteUnderAdmin | src/admin/routes/routePaths.ts:6-20 | every route, constant or built, starts with `/admin` |
| Routes.HostelPathsExtendHostel | src/admin/routes/routePaths.ts:12-14 | the create and edit paths are one step below the hostel list |
| Routes.HostelEditInjective | src/admin/routes/routePaths.ts:14 | two ids give the same edit path exactly when they have the same text |
| Routes.NumericEditPaths | src/admin/routes/routePaths.ts:14 | the number n and the text of n give one path; distinct numbers give distinct paths |
| Routes.EditPathsAreNotConstants | src/admin/routes/routePaths.ts:7-19 | no edit path is one of the constant routes |
| Chunks.ReactDomTestIsRedundant | vite.config.ts:53 | the `react-dom` test never decides anything, since `react-dom` contains `react` |
| Chunks.ManualChunksIsFirstMatch | vite.config.ts:14-59 | the `if` chain is the rule table tried in order |
| Chunks.EveryVendorIdHasAChunk | vite.config.ts:16-58 | an id outside `node_modules` gets no chunk; every other id gets one of the eleven |
| Chunks.FirstMatchIsAChunk | vite.config.ts:18-57 | the first match is one of the eleven chunk names |
| Chunks.RuleChunksDistinct | vite.config.ts:18-57 | the rules name ten distinct chunks, none of them `vendor-other` |
| Chunks.FirstMatchPicksFirst | vite.config.ts:18-55 | an id goes to rule i's chunk exactly when it contains rule i's pattern and none of the earlier ones |
| Chunks.ReactLibrariesSplit | vite.config.ts:33-54 | `react-router` and `react-hook-form` modules never land in `vendor-react` |
| Chunks.AppSourcesGetNoChunk | vite.config.ts:16 | an application source such as `src/App.tsx` gets no manual chunk |

## Left out

- Rendering, animation, icons and styling. The model keeps the state the pages hold and what their effects and handlers do to it.
- Case mapping beyond ASCII. `toLowerCase` is modelled for the letters A-Z only.
- Floating-point numbers. Ids, amounts, floor and room counts are integers. `String(n)` is the decimal text of an integer, without exponent forms.
- JSON text. Storage holds parsed values, or a mark for text that does not parse. The model assumes a parsed snapshot is an object, and does not model prototype keys inherited by plain objects.
- `Object.values` order. The engine's key order is not modelled. Listings carry a ghost enumeration order, and the lemmas show that the results that matter do not depend on it.
- Logging (`console.error`), timers and `navigate`. The effects they have on the page are outside the model.
- Browser storage is two things here. The store's slots are a map in `EntityStore`, and the settings page has its own map. The settings key would share the store's `hm_admin_` namespace, as `Settings.SettingsKeyBesideStoreSlots` states.
- `Number(id)` on a non-numeric route parameter gives NaN. The edit page's route parameter is `Option<int>`, with an absent or empty parameter as `None`.
- `z.number()` receiving NaN from an empty number input is not modelled.
- Zod's default messages exist for the two `max` checks, but the source gives none, so `HostelEdit.SchemaErrors` reports those two with no message.
- Settings.Merge: a stored `permissions` object replaces the permissions whole, as the spread does. A stored object missing some switches would leave them undefined, and that is not modelled. Extra stored properties are ignored.
- HostelService.HostelService.UpdateHostel, Db.EntityStore.Update, Db.ShallowMerge: a patch cannot write an explicit `undefined` into a field. A patch record holds only the fields it sets.
- HostelService.HostelService.UpdateHostel: the returned hostel is stated as the stored record read as a hostel. That it is the patched hostel follows from `HostelTypes.PatchedRecordIsPatchedHostel`.
- A page size of zero or less is not modelled; the source would compute NaN or Infinity pages. The data table requires a positive page size.
- New rows can leave the current page past the last page, where the source shows an empty page. The data table allows that state, and `RangeLabelDescribesRows` covers only pages that hold rows.
- HostelService.HostelService.constructor: the service requires that the stored hostel collection holds only hostel-shaped records. A stored snapshot with other records would make the source throw in the search, for example at `toLowerCase`; that case is not modelled.
- Db.EntityStore: whether a storage write succeeds is fixed for the store's lifetime by `writable`. A quota failure on a large write followed by a success on a smaller one cannot be expressed.
- The static mock datasets (hostels, accounts, tenants, employees, vendors, alerts) are parameters, not their contents.
- The remaining routes and pages (overview, communication, finance) and the layout components are not part of this model.
