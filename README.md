# NEXUS store and tab logic, in Dafny

This project models NEXUS, a personal wellbeing and social web app, at two levels.

The client-side **store** (`useNexusStore`) holds the app's state:
- the users, mood entries, goals, achievements, posts, journal entries, habits, resource groups and moderation reports;
- the signed-in user;
- the admin settings.

The **tab components** derive their lists and figures from that store and call its actions:
- Feed, Mood, Goals, Habits, Journal, Achievements, Profile, Admin and Stats.

Layout:

- `wrappers.dfy` (`Wrappers`): `Option`.
- `text.dfy` (`Text`): the string operations the components use:
  - ASCII case folding for `toLowerCase`;
  - `trim`;
  - `includes` on strings;
  - `join`.
- `seqs.dfy` (`Seqs`): generic list operations the store and tabs are built from:
  - filter, update-by-key and remove-by-key;
  - the includes-then-filter-or-append toggle;
  - `find` and `findIndex`;
  - sums;
  - a newest-first sort.
- `entities.dfy` (`Entities`): the records, with a patch datatype per record for `Partial<T>` updates (`{...x, ...updates}`), and the seeded administrator.
- `social.dfy` (`Social`): the friend-invite actions as functions on the user list, with the friendship-symmetry invariant.
- `store.dfy` (`Store`):
  - `NexusStore` is a class with one `seq` field per collection.
  - Every action is a method whose `modifies` clause names exactly the fields that action `set`s, so every other field is unchanged.
  - `Valid()` states that ids are unique in every collection.
- `feed.dfy`, `mood.dfy`, `goals.dfy`, `habits.dfy`, `journal.dfy`, `achievements.dfy`, `profile.dfy`, `admin.dfy`, `stats.dfy`: one module per tab.
  - Derived lists and figures are functions with lemmas.
  - Handlers are methods on the store.
  - The journal entry form is a class, because its handlers overwrite its fields.
  - The habit streak and the mood distribution, which the source computes with loops, are methods with loop invariants.

Modelling choices:
- Days (`yyyy-MM-dd`) and ISO timestamps are integers.
- The current time or day, `new Date()`, is a parameter of each handler that uses it.
- `generateId` (random) becomes `GenerateId`, which returns an id not used in the collection it is for.

## Model

| member | source | states |
|---|---|---|
| Store.GenerateId | src/lib/store.ts:213 | the new id is non-empty and not among the ids already taken |
| Store.FindLogin | src/lib/store.ts:253-255 | no result iff no user has that username ignoring case with exactly that password; otherwise the first such user |
| Store.UsernameTaken | src/lib/store.ts:266-268 | true iff some stored username equals the new one ignoring case |
| Store.ToggleLike | src/lib/store.ts:386-390 | only the likes change, and the user is a liker afterwards iff it was not before |
| Store.ToggleCompletion | src/lib/store.ts:455-458 | only the dates and the streak change; the date is present afterwards iff it was absent; the streak equals the number of dates |
| Store.LikeTwice | src/lib/store.ts:383-395 | liking twice gives every post back its other fields and its set of likers; a post the user had not liked comes back unchanged |
| Store.CompleteTwice | src/lib/store.ts:451-463 | completing twice gives every habit back its set of dates; other habits are unchanged; the streak is the number of dates |
| Store.NexusStore.constructor | src/lib/store.ts:240-250 | the initial state: nobody signed in, only the seeded administrator, every other collection empty, default settings |
| Store.NexusStore.Login | src/lib/store.ts:252-261 | the result is the first user matching (username ignoring case, exact password); on a match that user is signed in, otherwise the session is unchanged |
| Store.NexusStore.Logout | src/lib/store.ts:263 | nobody is signed in; only the session field may change |
| Store.NexusStore.Register | src/lib/store.ts:265-289 | a username taken ignoring case gives no result and no change; otherwise exactly one non-admin, private user with empty social lists and a fresh id is appended and signed in |
| Store.NexusStore.UpdateUser | src/lib/store.ts:291-300 | the patch is merged into the user with that id, and into the signed-in copy only when it is that user |
| Store.NexusStore.DeleteUser | src/lib/store.ts:302-313 | that user, and its posts, mood entries, goals, achievements, journal entries, habits and groups, are gone; every other element stays, in order; reports and the session are not in the frame |
| Store.NexusStore.DropUserAndFeed | src/lib/store.ts:304-307 | the user, its posts, mood entries and goals are removed; everything else stays in order |
| Store.NexusStore.DropPrivateRecords | src/lib/store.ts:308-311 | its achievements, journal entries, habits and groups are removed; everything else stays in order |
| Store.NexusStore.CreateUserAsAdmin | src/lib/store.ts:562-571 | one user is appended under a fresh id with the given data and creation time, with no username check; the prefix is kept |
| Store.NexusStore.AddMoodEntry | src/lib/store.ts:315-319 | appends one entry with a fresh id; earlier entries are kept as they were |
| Store.NexusStore.UpdateMoodEntry | src/lib/store.ts:321-327 | merges the patch into the entry with that id only; no-op when no id matches |
| Store.NexusStore.AddGoal | src/lib/store.ts:329-333 | appends one goal with a fresh id; the prefix is kept |
| Store.NexusStore.UpdateGoal | src/lib/store.ts:335-341 | merges the patch into the goal with that id only |
| Store.NexusStore.DeleteGoal | src/lib/store.ts:343-347 | removes exactly the goals with that id, keeping the order of the rest |
| Store.NexusStore.AddAchievement | src/lib/store.ts:349-353 | appends one achievement with a fresh id; the prefix is kept |
| Store.NexusStore.UpdateAchievement | src/lib/store.ts:355-361 | merges the patch into the achievement with that id only |
| Store.NexusStore.AddPost | src/lib/store.ts:363-367 | appends one post with a fresh id; the prefix is kept |
| Store.NexusStore.UpdatePost | src/lib/store.ts:369-375 | merges the patch into the post with that id only |
| Store.NexusStore.DeletePost | src/lib/store.ts:377-381 | removes exactly the posts with that id |
| Store.NexusStore.LikePost | src/lib/store.ts:383-395 | toggles the user in the likes of the post with that id; other posts are unchanged |
| Store.NexusStore.AddComment | src/lib/store.ts:397-409 | appends the comment, under an id used by no stored comment, to the post with that id only |
| Store.NexusStore.AddJournalEntry | src/lib/store.ts:411-415 | appends one entry with a fresh id; the prefix is kept |
| Store.NexusStore.UpdateJournalEntry | src/lib/store.ts:417-423 | merges the patch into the entry with that id only |
| Store.NexusStore.DeleteJournalEntry | src/lib/store.ts:425-429 | removes exactly the entries with that id |
| Store.NexusStore.AddHabit | src/lib/store.ts:431-435 | appends one habit with a fresh id; the prefix is kept |
| Store.NexusStore.UpdateHabit | src/lib/store.ts:437-443 | merges the patch into the habit with that id only |
| Store.NexusStore.DeleteHabit | src/lib/store.ts:445-449 | removes exactly the habits with that id |
| Store.NexusStore.CompleteHabit | src/lib/store.ts:451-463 | toggles the date in the habit with that id and resets its streak to its number of dates; other habits are unchanged |
| Store.NexusStore.AddResourceGroup | src/lib/store.ts:465-469 | appends one group with a fresh id; the prefix is kept |
| Store.NexusStore.UpdateResourceGroup | src/lib/store.ts:471-477 | merges the patch into the group with that id only |
| Store.NexusStore.DeleteResourceGroup | src/lib/store.ts:479-483 | removes exactly the groups with that id |
| Store.NexusStore.SendFriendInvite | src/lib/store.ts:485-494 | the users become `Social.SendInvite` of the old users |
| Store.NexusStore.AcceptFriendInvite | src/lib/store.ts:496-512 | the users become `Social.AcceptInvite` of the old users |
| Store.NexusStore.DeclineFriendInvite | src/lib/store.ts:514-526 | the users become `Social.DeclineInvite` of the old users |
| Store.NexusStore.RemoveFriend | src/lib/store.ts:528-540 | the users become `Social.RemoveFriend` of the old users |
| Store.NexusStore.AddReport | src/lib/store.ts:542-546 | appends the report as given, with a fresh id; the prefix is kept |
| Store.NexusStore.UpdateReport | src/lib/store.ts:548-554 | merges the patch into the report with that id only |
| Store.NexusStore.UpdateAdminSettings | src/lib/store.ts:556-560 | the settings become the old ones merged with the patch |
| Entities.SeedAdmin | src/lib/store.ts:224-235 | the seeded account is `admin-001`, username `admin`, an administrator, private, with empty social lists |
| Entities.ApplyUser | src/lib/store.ts:293-298 | a merge keeps the id; an empty patch changes nothing; a given display name or bio replaces the old one, an absent one keeps it; the social lists are kept unless patched |
| Entities.ApplyMood | src/lib/store.ts:323-324 | a merge keeps the id; an empty patch changes nothing; owner, date and privacy are kept unless patched |
| Entities.ApplyGoal | src/lib/store.ts:337-338 | a merge keeps the id; an empty patch changes nothing; progress, status, owner and creation time are replaced iff patched |
| Entities.ApplyGoalIdempotent | src/lib/store.ts:337-338 | merging the same patch twice is merging it once |
| Entities.ApplyAchievement | src/lib/store.ts:357-358 | a merge keeps the id; a likes-only patch changes the likes and nothing else |
| Entities.ApplyPost | src/lib/store.ts:371-372 | a merge keeps the id; an empty patch changes nothing |
| Entities.ApplyJournal | src/lib/store.ts:419-420 | a merge keeps the id; content and tags are replaced when given; owner, mood and date are kept unless patched |
| Entities.ApplyHabit | src/lib/store.ts:439-440 | a merge keeps the id; an empty patch changes nothing |
| Entities.ApplyGroup | src/lib/store.ts:473-474 | a merge keeps the id; an empty patch changes nothing |
| Entities.ApplyReport | src/lib/store.ts:550-551 | a merge keeps the id; a given status replaces the old one |
| Entities.ApplySettings | src/lib/store.ts:558 | an empty patch changes nothing; maintenance mode is replaced iff patched |
| Social.SendInvite | src/lib/store.ts:485-494 | only the invitee changes, and only its pending invites: the inviter is appended unless already there, in which case nothing changes |
| Social.SendInviteIdempotent | src/lib/store.ts:485-494 | a second identical invite is a no-op |
| Social.SendInviteNoDup | src/lib/store.ts:488-489 | duplicate-free pending lists stay duplicate-free |
| Social.AcceptInvite | src/lib/store.ts:496-512 | the accepting user gains the inviter at the end of its friends and loses every copy of it from its invites; the inviter gains the user; nobody else changes; no check that an invite was pending |
| Social.DeclineInvite | src/lib/store.ts:514-526 | only the declining user's invites change: the inviter is gone from them, every other invite stays, nothing is added, friends are untouched |
| Social.RemoveFriend | src/lib/store.ts:528-540 | both ids leave the friend lists of both users, their other friends stay, nothing is added, and no other user or field changes |
| Social.DeclineRemoveIdempotent | src/lib/store.ts:514-540 | a second identical decline, or removal, is a no-op |
| Social.AcceptKeepsSymmetry | src/lib/store.ts:496-512 | with unique ids, accepting keeps friendship symmetric, also when a party is missing |
| Social.RemoveKeepsSymmetry | src/lib/store.ts:528-540 | with unique ids, removing keeps friendship symmetric |
| Social.InviteThenAccept | src/lib/store.ts:485-512 | after an invite and its acceptance, the two are each other's friends and the invite is gone |
| Social.AliceAndBob | src/lib/store.ts:485-512 | concrete scenario: bob invites alice, alice accepts; both friend lists and alice's invites come out as expected, the admin is untouched |
| Text.FoldChar | src/lib/store.ts:254 | ASCII upper-case letters are folded to lower case, every other character is kept, and no upper-case letter remains |
| Text.LowerEqIffSameIgnoringCase | src/lib/store.ts:254 | comparing lower-cased strings is exactly comparing them up to case |
| Text.LowerIdempotent | src/components/tabs/JournalTab.tsx:21 | lower-casing twice is lower-casing once |
| Text.TrimStart | src/components/tabs/JournalTab.tsx:27 | the result is a suffix of the input, it does not start with white space, and everything dropped was white space |
| Text.TrimEnd | src/components/tabs/JournalTab.tsx:27 | the result is a prefix of the input, it does not end with white space, and everything dropped was white space |
| Text.Trim | src/components/tabs/JournalTab.tsx:27 | the trimmed string neither starts nor ends with white space |
| Text.TrimEmptyIffAllSpace | src/components/tabs/JournalTab.tsx:38 | a string trims to empty iff it is all white space |
| Text.TrimIdempotent | src/components/tabs/JournalTab.tsx:27 | trimming twice is trimming once |
| Text.ContainsIffAt | src/components/tabs/JournalTab.tsx:21 | `includes` holds iff the needle sits at some offset of the haystack |
| Text.ContainsEmptyAndSelf | src/components/tabs/JournalTab.tsx:20-21 | every string includes the empty string and itself |
| Text.Join | src/components/tabs/JournalTab.tsx:70-71 | joining nothing gives the empty string; joining one string gives that string |
| Text.JoinSnoc | src/components/tabs/JournalTab.tsx:71 | joining one more string appends the separator and that string |
| Text.JoinLength | src/components/tabs/JournalTab.tsx:71 | a join is as long as its parts plus one separator between each two |
| Seqs.Toggle | src/lib/store.ts:387-389 | an absent element is appended; a present one loses every copy; every other element keeps its membership |
| Seqs.ToggleTwice | src/lib/store.ts:387-389 | toggling twice restores membership |
| Seqs.Erase | src/components/tabs/JournalTab.tsx:34 | `filter(t => t !== x)`: x is gone, every other element stays, in order |
| Seqs.SortDesc | src/components/tabs/FeedTab.tsx:51 | the sort is a permutation ordered by key, largest first |
| Feed.VisibilityRules | src/components/tabs/FeedTab.tsx:37-43 | own and public posts are visible; a friends post is visible iff its author exists and lists the viewer; another user's private post is never visible |
| Feed.SeenPosts | src/components/tabs/FeedTab.tsx:35-44 | exactly the stored posts the viewer may see |
| Feed.FilteredPosts | src/components/tabs/FeedTab.tsx:45-50 | under the friends filter, exactly the posts by a friend of the viewer or by the viewer; all posts otherwise |
| Feed.VisiblePosts | src/components/tabs/FeedTab.tsx:35-51 | a permutation of the reference subset (one filter by both tests), newest first; empty under the friends filter with nobody signed in |
| Feed.VisiblePostsMembers | src/components/tabs/FeedTab.tsx:35-51 | a post is in the feed iff it is stored and passes both filters |
| Feed.HandleLike | src/components/tabs/FeedTab.tsx:53-56 | no change without a signed-in user; otherwise that user's like on the post is toggled |
| Feed.HandleComment | src/components/tabs/FeedTab.tsx:58-68 | blank text or no user: no change and the input is kept; otherwise the untrimmed text is appended as that user's comment under a fresh id and the input is cleared |
| Feed.HandleReport | src/components/tabs/FeedTab.tsx:70-83 | no user or a blank reason: no change; otherwise one pending report by the user against the author is appended and the reason is cleared |
| Mood.MoodIdsDistinct | src/components/tabs/MoodTab.tsx:8-17 | the eight mood ids are distinct |
| Mood.MoodIndex | src/components/tabs/MoodTab.tsx:55 | `findIndex`: the position of the mood in the table, or -1 iff it is not listed |
| Mood.MoodIndexOfListed | src/components/tabs/MoodTab.tsx:55 | a listed mood is found at its own position |
| Mood.MoodScore | src/components/tabs/MoodTab.tsx:55-57 | both branches of the formula give 8 minus the index, so an unlisted mood scores 9 |
| Mood.ListedScores | src/components/tabs/MoodTab.tsx:55-57 | the k-th listed mood scores 8 - k, within 1..8 |
| Mood.ScoresDecrease | src/components/tabs/MoodTab.tsx:55-57 | scores strictly decrease in table order |
| Mood.EntryOn | src/components/tabs/MoodTab.tsx:35-37 | no entry without a user; otherwise none iff the user has no entry that day, else the first entry of that user on that day |
| Mood.MoodColor | src/components/tabs/MoodTab.tsx:43-50 | the neutral colour when the day has no entry or its mood is unlisted, otherwise that mood's colour |
| Mood.ToggleEmotion | src/components/tabs/MoodTab.tsx:87-93 | a present emotion is removed, an absent one appended, the others keep their membership |
| Mood.ToggleEmotionTwice | src/components/tabs/MoodTab.tsx:87-93 | two toggles restore membership; a duplicate-free list stays so |
| Mood.ResaveShape | src/components/tabs/MoodTab.tsx:60-66 | saving over an entry changes only its mood, score, emotions, intensity and note, and keeps one entry per user and day |
| Mood.AddKeepsOnePerDay | src/components/tabs/MoodTab.tsx:68-77 | adding an entry for a free (user, day) keeps one entry per user and day |
| Mood.HandleSave | src/components/tabs/MoodTab.tsx:52-85 | no mood or no user: no change; an existing entry for that day is rewritten in its form fields only; otherwise one private entry is appended; the form is cleared; one entry per user and day is preserved |
| Mood.SaveOver | src/components/tabs/MoodTab.tsx:59-66 | the entry with that id gets the form's fields; every other entry is unchanged |
| Mood.SaveNew | src/components/tabs/MoodTab.tsx:67-78 | one private entry for that user and day is appended; the prefix is kept |
| Goals.UserGoals | src/components/tabs/GoalsTab.tsx:19 | exactly the signed-in user's goals; none without a user |
| Goals.ActiveGoals | src/components/tabs/GoalsTab.tsx:20 | only the user's active goals |
| Goals.CompletedGoals | src/components/tabs/GoalsTab.tsx:21 | only the user's completed goals |
| Goals.Partition | src/components/tabs/GoalsTab.tsx:19-21 | the two lists are disjoint, together no longer than the user's goals, exclude paused goals, and include each active or completed goal of the user |
| Goals.ListedStatus | src/components/tabs/GoalsTab.tsx:20-21 | a goal in either list has that list's status |
| Goals.ListedComplete | src/components/tabs/GoalsTab.tsx:20-21 | each active or completed goal of the user is in its list |
| Goals.ProgressStatus | src/components/tabs/GoalsTab.tsx:79 | completed iff the progress is at least 100, otherwise active; never paused |
| Goals.ProgressShape | src/components/tabs/GoalsTab.tsx:77-80 | the update sets the progress and the status it implies and keeps every other field |
| Goals.HandleProgressChange | src/components/tabs/GoalsTab.tsx:76-81 | the goal with that id gets the progress and its status, also over a paused goal; the others are unchanged |
| Goals.EditForm | src/components/tabs/GoalsTab.tsx:65-74 | the form opens on the goal, with a missing fear shown as empty |
| Goals.Edited | src/components/tabs/GoalsTab.tsx:37-45 | an edit keeps id, owner, progress, status, creation time, linked habits and target date |
| Goals.EditShape | src/components/tabs/GoalsTab.tsx:38-45 | the edit update is exactly the edit |
| Goals.EditUntouched | src/components/tabs/GoalsTab.tsx:37-74 | saving an opened goal untouched changes nothing, except that a missing fear becomes empty |
| Goals.NewGoal | src/components/tabs/GoalsTab.tsx:47-59 | a new goal has progress 0, is active, has no linked habits, and is the user's |
| Goals.HandleSave | src/components/tabs/GoalsTab.tsx:34-63 | no title or no user: no change; editing a non-empty (truthy) id rewrites only the goal being edited; otherwise one new goal is appended; the form is reset |
| Habits.UserHabits | src/components/tabs/HabitsTab.tsx:16 | exactly the signed-in user's habits |
| Habits.DoneToday | src/components/tabs/HabitsTab.tsx:49-51 | the done-today count is at most the number of the user's habits, and equal to it iff all of them are checked off today |
| Habits.StreakStart | src/components/tabs/HabitsTab.tsx:59-66 | counting starts today when today is checked off, else yesterday |
| Habits.GetStreak | src/components/tabs/HabitsTab.tsx:53-70 | the loop ends; the result is the length of the maximal run of completed days ending at the start day; it is at most the number of distinct completed dates |
| Habits.RunBound | src/components/tabs/HabitsTab.tsx:57-67 | a run of completed days is no longer than the number of distinct completed dates |
| Habits.StreakZero | src/components/tabs/HabitsTab.tsx:57-67 | with neither today nor yesterday checked off, the streak is 0 |
| Habits.NewHabit | src/components/tabs/HabitsTab.tsx:27-36 | a new habit has streak 0 and no completed dates, and is the user's |
| Habits.HandleCreate | src/components/tabs/HabitsTab.tsx:24-43 | a blank title or no user: no change; otherwise one new habit is appended and the form is cleared |
| Habits.ToggleComplete | src/components/tabs/HabitsTab.tsx:45-47 | only that habit changes: today's membership flips, every other date keeps its membership, the streak is the number of dates, and every other field of the habit is kept |
| Journal.ListedEntries | src/components/tabs/JournalTab.tsx:17-23 | exactly the user's entries whose content or some tag contains the query ignoring case (all of them for an empty query) |
| Journal.UserEntries | src/components/tabs/JournalTab.tsx:17-24 | a permutation of the reference subset, newest first |
| Journal.UserEntriesMembers | src/components/tabs/JournalTab.tsx:17-24 | an entry is listed iff it is stored, the user's, and matches |
| Journal.ListedMembers | src/components/tabs/JournalTab.tsx:17-23 | the reference subset holds an entry iff it is stored, the user's, and matches |
| Journal.EmptyQueryListsAll | src/components/tabs/JournalTab.tsx:20 | with an empty query exactly the user's entries are listed |
| Journal.ExportBlock | src/components/tabs/JournalTab.tsx:70 | a block is `# ` and the date header, a blank line, the content, a blank line and `Tags: `, the tags joined by `, `, and the closing rule, each at its offset |
| Journal.ExportMarkdown | src/components/tabs/JournalTab.tsx:69-71 | no entries export to the empty string |
| Journal.Blocks | src/components/tabs/JournalTab.tsx:69-70 | one block per entry, in order |
| Journal.ExportSnoc | src/components/tabs/JournalTab.tsx:69-71 | one entry exports to its block; one more entry adds a newline and its block |
| Journal.BlocksPrefix | src/components/tabs/JournalTab.tsx:69-70 | the blocks of all but the last entry are all but the last block |
| Journal.ExportLength | src/components/tabs/JournalTab.tsx:69-71 | the export is as long as its blocks plus one newline between each two |
| Journal.JournalForm.constructor | src/components/tabs/JournalTab.tsx:10-14 | the form starts closed and empty |
| Journal.JournalForm.AddTag | src/components/tabs/JournalTab.tsx:26-31 | the trimmed input is appended and cleared iff it is non-blank and not yet a tag; a duplicate-free list stays so |
| Journal.JournalForm.RemoveTag | src/components/tabs/JournalTab.tsx:33-35 | every copy of the tag is removed, the others stay in order, and a duplicate-free list stays so |
| Journal.JournalForm.Edit | src/components/tabs/JournalTab.tsx:61-66 | the form opens on the entry's content, tags and id |
| Journal.JournalForm.Save | src/components/tabs/JournalTab.tsx:37-59 | blank content or no user: no change; editing a non-empty (truthy) id changes only that entry's content and tags; otherwise one entry is appended; the form is reset |
| Achievements.Wall | src/components/tabs/AchievementsTab.tsx:23-25 | a permutation of exactly the user's achievements (every copy kept once), newest first |
| Achievements.FindAchievement | src/components/tabs/AchievementsTab.tsx:50 | none iff no achievement has that id; otherwise one with that id |
| Achievements.Liked | src/components/tabs/AchievementsTab.tsx:50-57 | the list keeps its length and is unchanged when no achievement has that id |
| Achievements.LikedShape | src/components/tabs/AchievementsTab.tsx:53-57 | with unique ids, the achievement with that id gets its likes toggled for the user, and nothing else changes |
| Achievements.LikeTwice | src/components/tabs/AchievementsTab.tsx:53-57 | two likes in a row restore every achievement's likers and other fields |
| Achievements.HandleLike | src/components/tabs/AchievementsTab.tsx:48-58 | no user or unknown id: no change; otherwise the achievements become `Liked` of the old ones |
| Achievements.NewAchievement | src/components/tabs/AchievementsTab.tsx:30-39 | a new achievement is the user's, dated now, with no likes or comments |
| Achievements.HandleSave | src/components/tabs/AchievementsTab.tsx:27-46 | empty title or no user: no change; otherwise one new achievement is appended and the form is cleared |
| Profile.Friends | src/components/tabs/ProfileTab.tsx:13 | exactly the users the signed-in user lists as friends; none without a user |
| Profile.FriendsInOrder | src/components/tabs/ProfileTab.tsx:13 | the friends list follows the order of the users |
| Profile.PendingInvites | src/components/tabs/ProfileTab.tsx:14 | exactly the users whose invites the signed-in user holds; none without a user |
| Profile.InvitesInOrder | src/components/tabs/ProfileTab.tsx:14 | the invites list follows the order of the users |
| Profile.SearchResults | src/components/tabs/ProfileTab.tsx:15-19 | empty for an empty query; never the user or a friend; only matching names; every other matching user |
| Profile.FriendsNotSearched | src/components/tabs/ProfileTab.tsx:13-19 | a friend is in the friends list and never in the search results |
| Profile.ProfileShape | src/components/tabs/ProfileTab.tsx:23 | the update rewrites the display name and bio and keeps every other field |
| Profile.HandleSave | src/components/tabs/ProfileTab.tsx:21-25 | no user: no change and the editor stays; otherwise only that user's display name and bio change, also in the signed-in copy, and the editor closes |
| Profile.Invite | src/components/tabs/ProfileTab.tsx:70 | without a user nothing changes; otherwise the signed-in user invites that user |
| Profile.Accept | src/components/tabs/ProfileTab.tsx:85 | without a user nothing changes; otherwise the invite is accepted |
| Profile.Decline | src/components/tabs/ProfileTab.tsx:86 | without a user nothing changes; otherwise the invite is declined |
| Profile.Unfriend | src/components/tabs/ProfileTab.tsx:99 | without a user nothing changes; otherwise the friendship is removed |
| Admin.PendingReports | src/components/tabs/AdminTab.tsx:15 | exactly the pending reports |
| Admin.ListedUsers | src/components/tabs/AdminTab.tsx:73 | everyone but the administrator; with unique ids and the administrator present, exactly one user fewer |
| Admin.AdminCreated | src/components/tabs/AdminTab.tsx:19 | the account passed on is a non-admin, private user with empty social lists |
| Admin.HandleCreateUser | src/components/tabs/AdminTab.tsx:13-21 | not an administrator, or any input empty: no change; otherwise one account is appended without a uniqueness check, and the inputs are cleared |
| Admin.FindReport | src/components/tabs/AdminTab.tsx:24 | none iff no report has that id; otherwise one with that id |
| Admin.StatusShape | src/components/tabs/AdminTab.tsx:26 | resolving sets the status and keeps the rest of the report |
| Admin.ResolvedLeavesPending | src/components/tabs/AdminTab.tsx:15-26 | after resolution no pending report has that id, and every other pending report is still pending |
| Admin.HandleResolveReport | src/components/tabs/AdminTab.tsx:13-27 | not an administrator: no change; otherwise the reported user is deleted with all they own iff asked and the report exists, and the report's status becomes the action |
| Admin.DeleteReported | src/components/tabs/AdminTab.tsx:25 | the cascade delete happens iff asked and the report exists |
| Admin.HandleDeleteUser | src/components/tabs/AdminTab.tsx:79 | for an administrator, that user and everything they own are deleted; otherwise nothing changes |
| Stats.UserMoods | src/components/tabs/StatsTab.tsx:19 | exactly the user's mood entries |
| Stats.UserAchievements | src/components/tabs/StatsTab.tsx:21 | exactly the user's achievements |
| Stats.Last30 | src/components/tabs/StatsTab.tsx:29 | the 30 days ending today, in order |
| Stats.FilledDays | src/components/tabs/StatsTab.tsx:29-31 | at most 30, and equal to the number of days in the window that have an entry |
| Stats.WindowCount | src/components/tabs/StatsTab.tsx:30-31 | filtering the window counts exactly the filled days within it |
| Stats.TotalCompletions | src/components/tabs/StatsTab.tsx:47 | zero without habits; each habit's completions are part of the total |
| Stats.TotalCompletionsSplit | src/components/tabs/StatsTab.tsx:47 | the total adds up over any split, and one habit contributes its number of dates |
| Stats.GoalSummary | src/components/tabs/StatsTab.tsx:41-45 | active + completed is at most the total; the rate is 0 without goals or completions, 100 when all are completed, and within 0..100 |
| Stats.RoundedPercent | src/components/tabs/StatsTab.tsx:44 | within 0..100, 0 for none and 100 for all |
| Stats.CountMood | src/components/tabs/StatsTab.tsx:50-53 | a count is at most the number of entries |
| Stats.CountPositive | src/components/tabs/StatsTab.tsx:50-53 | a mood's count is positive iff some entry has that mood |
| Stats.CountSnoc | src/components/tabs/StatsTab.tsx:51 | one more entry adds one to its mood's count only |
| Stats.BumpKeeps | src/components/tabs/StatsTab.tsx:51 | incrementing an existing key keeps the tally exact, distinct and covering, and adds one to the sum |
| Stats.AppendKeeps | src/components/tabs/StatsTab.tsx:51 | adding a new key with count 1 keeps the tally exact, distinct and covering |
| Stats.AppendSum | src/components/tabs/StatsTab.tsx:51 | adding a key adds its count to the sum |
| Stats.MoodDistribution | src/components/tabs/StatsTab.tsx:50-53 | keys are distinct and are exactly the moods that occur, each count is that mood's number of entries and at least 1, and the counts sum to the number of entries |
| Stats.TopMood | src/components/tabs/StatsTab.tsx:66 | none iff the distribution is empty; otherwise an entry of it whose count is at least every count |
| Stats.TopIsLargest | src/components/tabs/StatsTab.tsx:66 | the first entry after the descending sort is in the distribution and has the largest count |
| Stats.TallyBounded | src/components/tabs/StatsTab.tsx:50-53 | when the counts sum to the number of entries, no count exceeds it |

## Left out

- Persistence (`create`/`persist` and localStorage, src/lib/store.ts:237-238, 573-576) is library plumbing; the store is a plain class.
- `generateId`'s `Math.random` is replaced by `Store.GenerateId`, which returns an id not in the collection; randomness, and the chance of a collision, are not modelled.
- `new Date()`, ISO strings and date-fns (`format`, `subDays`, `eachDayOfInterval`, `isToday`) are replaced by integer days and timestamps passed in as parameters:
  - a day is one integer step;
  - formatting the export's date header is the parameter `formatDate`.
- Floating-point statistics are not modelled: `avgMoodScore` and `moodVariability` (src/components/tabs/StatsTab.tsx:25-27, 33-39, which use `Math.sqrt` and `Math.pow`).
- Stats.RoundedPercent: computes `Math.round(completed / total * 100)` in exact arithmetic, rounding halves up. It states only the range and the two end points; floating-point error at exact halves is not modelled.
- The HabitsTab percentages are floating-point display values and are not modelled.
- Blob, URL and DOM downloads in `exportJournal` are not modelled; only the Markdown string is.
- Rendering (JSX, framer-motion) is not modelled. Neither are thin UI files with only trivial guards: AuthScreen, GroupsTab, PostTab, SettingsTab, BottomNav, Index and HomeTab.
- Text.Lower: folds ASCII letters only, not Unicode case mapping.
- Text.Trim: strips the ASCII white-space characters only, not Unicode white space.
- Entities.ApplyUser: like the other patch functions, it cannot set an optional field back to absent, and it never changes the id. No caller in the modelled code does either.
- Entities.ApplyPost: states only that the id is kept and that an empty patch changes nothing. No modelled caller sends a post update.
- Entities.ApplyHabit: states only that the id is kept and that an empty patch changes nothing. No modelled caller sends a habit update.
- Entities.ApplyGroup: states only that the id is kept and that an empty patch changes nothing. No modelled caller sends a group update.
- Stats.TopMood: states only that the top mood has the largest count. Which of several tied moods comes first depends on `Object.entries` key order and sort stability, and is not stated.
- Seqs.SortDesc: states a largest-first permutation. The order of entries with equal timestamps is not stated, and neither is the source's sort on equal keys.
- Store.NexusStore.AcceptFriendInvite: the signed-in copy (`currentUser`) is a snapshot in the source and is not refreshed by the friend actions. The model keeps it unchanged too, so derived profile lists read the snapshot.
- Store.NexusStore.AddReport: appends the report with the status it is given, as the code does; it does not force `pending`. The only caller, Feed.HandleReport, passes `pending`.
- Store.NexusStore.UpdateGoal: a plain merge, as the code does. Status is derived from progress only in the GoalsTab handler (Goals.HandleProgressChange), not in the store.
- Mood.MoodColor: the `||` fallback on a listed mood's colour can never fire, because every listed colour is non-empty; the model returns the table colour directly.
- The admin settings form state in AdminTab (`primaryColor`, src/components/tabs/AdminTab.tsx:11) is never used by a handler and is not modelled.
