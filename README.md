# PolyglotBot, modelled in Dafny

PolyglotBot is a Telegram bot that plays a language-guessing game. It sends a
short audio clip and a keyboard of four language names, and waits for the user
to pick the language spoken in the clip. A correct answer earns one point and a
new clip. A wrong answer leaves the same clip pending. `/leaderboard` lists the
ten best players. Per-user state lives in one SQLite table `Users(username,
score, current_lang_path)`. An empty `current_lang_path` means no clip is
pending; otherwise the language of the pending clip is read back from its path.

The model covers the whole game core of `bot.py`:

- `outcomes.dfy` (`Outcomes`): `Option` and `Result`. A raised exception is
  `Err(AssetUnavailable)`.
- `languages.dfy` (`LanguageDetection`):
  - The 18-language list.
  - Python's substring test `Occurs`.
  - `LanguageOf`, the scan `get_lang` performs over a language list.
  - Facts about the concrete list: distinct, capitalised, no name a prefix of
    another.
- `user_store.dfy` (`UserStore`):
  - The `Users` table as the class `Database`: a map from username to
    `Record(score, langPath)`, plus the insertion (rowid) order.
  - The `User` handle as a class: the username, the connection and its own
    `languages` list, with the methods of `User` in `bot.py`.
  - The leaderboard query as a stable insertion sort.
- `audio_catalogue.dfy` (`AudioCatalogue`): `choose_language`, `choose_track`
  and `choose_audio` over a catalogue standing for the `audio/` directory
  listing.
- `markup.dfy` (`Markup`): `genrate_markup`'s draw of four labels without
  replacement, and the overwrite with the correct language.
- `game.dfy` (`Game`): what `send_track` and `check_answer` do, as pure
  functions of the table rows:
  - `SendTrackEffect` and `AnswerEffect` give the new rows, the messages sent
    and whether the handler raised.
  - Also here: message routing, registration and the leaderboard text.
- `bot.dfy` (`Bot`): the `PolyglotBot` class.
  - State: the session user `self.user`, the shared table and the log of every
    `sendMessage`/`sendAudio` call.
  - Each handler is a method proved to change the table and the log exactly as
    the `Game` functions say.
  - Each handler keeps the invariant `Valid()`: the session user has a row,
    and every pending path is one in which `get_lang` finds a language.

Every `randint` result is a parameter (`Draws`): the folder and file indices of
a new clip, the four picks of the keyboard and the overwrite slot. Each is
required to be in the range `randint` would draw from, whenever that range is
non-empty.

## Model

| member | source | states |
|---|---|---|
| LanguageDetection.LanguageOf | bot.py:70-76 | the scan of `get_lang`: a language it returns is one of the list and occurs in the path |
| LanguageDetection.LanguageOfFirstMatch | bot.py:70-76 | `get_lang` returns None exactly when no language of the list is a substring of the path; otherwise it returns a language that occurs in the path, and no earlier language of the list does |
| LanguageDetection.LanguageOfFinds | bot.py:70-76 | the language found is in the list and occurs in the path, and any listed language occurring in the path means one is found |
| LanguageDetection.LanguagesDistinct | bot.py:42-45 | the 18 languages are pairwise different |
| LanguageDetection.LanguagesCapitalised | bot.py:42-45 | every language name is one capital letter followed by lower-case letters |
| LanguageDetection.LanguageHeadsDistinct | bot.py:42-45 | no two language names share their first three letters |
| LanguageDetection.LanguagesPrefixFree | bot.py:42-45 | no language name is a prefix of another |
| UserStore.Database.constructor | bot.py:27-32 | the freshly created table is empty |
| UserStore.Database.Insert | bot.py:34-40 | the insert succeeds exactly when the name has no row, appending the row in insertion order; otherwise the UNIQUE constraint rejects it and nothing changes |
| UserStore.Database.UpdateScore | bot.py:59-61 | `UPDATE ... SET score` changes only the named row's score, and nothing when no row matches |
| UserStore.Database.UpdatePath | bot.py:81-83 | `UPDATE ... SET current_lang_path` changes only the named row's path, and nothing when no row matches |
| UserStore.User.constructor | bot.py:19-45 | an existing row is kept untouched; a new name gets the row (0, "") appended; the handle carries the 18-language list |
| UserStore.User.GetScore | bot.py:47-52 | returns the score stored in the user's row |
| UserStore.User.IncreaseScore | bot.py:54-61 | the user's score goes up by exactly one; every other row and the user's path are unchanged |
| UserStore.User.GetLangPath | bot.py:63-68 | returns the path stored in the user's row |
| UserStore.User.GetLang | bot.py:70-76 | the language returned is one of the handle's list and occurs in the stored path |
| UserStore.User.SetLangPath | bot.py:78-83 | only the user's path changes, to the given value |
| UserStore.User.GetTop | bot.py:85-90 | at most ten names, all with rows, sorted by score descending |
| UserStore.TopScores | bot.py:88 | `LIMIT 10` of the sorted names: exactly min(users, 10) names |
| UserStore.InsertByScore | bot.py:88 | inserting a name into a list adds exactly that name and removes none |
| UserStore.SortByScore | bot.py:88 | the sorted list is a permutation of the names in insertion order |
| UserStore.InsertKeepsDistinct | bot.py:88 | inserting a name not yet listed into a list of distinct names keeps them distinct |
| UserStore.InsertKeepsSorted | bot.py:88 | inserting a name into a score-sorted list keeps it sorted |
| UserStore.SortIsSorted | bot.py:88 | `ORDER BY score DESC` yields names in non-increasing score order |
| UserStore.SortKeepsDistinct | bot.py:88 | sorting never duplicates a username |
| UserStore.SortPermutes | bot.py:88 | sorting keeps the number of names and exactly the same names |
| UserStore.PrefixOutranks | bot.py:88 | in a score-sorted list, everyone in the first n scores at least as much as anyone after them |
| UserStore.InsertKeepsOrder | bot.py:88 | inserting a name keeps the relative order of the names already listed |
| UserStore.InsertAfterEqual | bot.py:88 | in a sorted list, a new name goes after every name scoring at least as much |
| UserStore.SortStable | bot.py:88 | of two names with equal scores, the one inserted first is listed first |
| UserStore.TopScoresShape | bot.py:85-90 | `get_top` lists min(users, 10) distinct users with rows, best score first |
| UserStore.TopScoresAreTop | bot.py:85-90 | no user left out of `get_top` scores higher than any user listed; with at most ten users, everyone is listed |
| UserStore.TopScoresStable | bot.py:85-90 | ties on the leaderboard follow insertion order: a listed user has every earlier-inserted user with the same score listed before them |
| AudioCatalogue.ChooseLanguage | bot.py:106-113 | a folder name from the listing, or an error exactly when the listing is empty |
| AudioCatalogue.ChooseTrack | bot.py:97-104 | a file of the folder, or an error exactly when the folder is empty |
| AudioCatalogue.ChooseAudio | bot.py:115-121 | `audio/<folder>/<file>` for the drawn folder and file, or an error exactly when the listing or the drawn folder is empty |
| AudioCatalogue.FolderOccursInPath | bot.py:115-121 | the folder name is a substring of every path built from it |
| AudioCatalogue.ChosenPathDetectable | bot.py:115-121 | when every folder is named after a language of the list, `get_lang` finds a language in every path `choose_audio` returns |
| AudioCatalogue.OccurrenceInTrackPath | bot.py:115-121 | a capitalised word occurring in `audio/<folder>/<file>` is a prefix of the folder name or occurs in the file name |
| AudioCatalogue.ChosenPathNamesFolder | bot.py:70-76 | `get_lang` returns exactly the folder's language when no language name occurs in the file name |
| AudioCatalogue.NoLanguageInLowerCaseName | bot.py:42-45 | a file name without capital letters contains no language name |
| AudioCatalogue.TrackNameCanMaskFolder | bot.py:70-76 | a Spanish folder holding `English.mp3` is scored as English |
| Markup.RemoveAt | bot.py:132 | `pop` shortens the list by one and keeps only elements of it |
| Markup.Sample | bot.py:126-132 | one label per pick |
| Markup.SampleStep | bot.py:128-132 | one loop iteration: the popped label comes first, and the later picks draw from what is left |
| Markup.DrawStep | bot.py:128-132 | one more draw of the loop keeps "labels drawn so far, then the rest of the sample" equal to the whole sample |
| Markup.Keyboard | bot.py:126-136 | the four labels of `genrate_markup`; the correct language is always one of them |
| Markup.RemoveAtKeepsDistinct | bot.py:132 | popping from a list of distinct entries keeps them distinct and removes the popped one |
| Markup.SampleWithoutReplacement | bot.py:126-132 | the four drawn labels are distinct languages from the list |
| Markup.KeyboardOffersCorrect | bot.py:123-137 | the keyboard has four distinct labels including the correct language; every other label is the language drawn for that slot |
| Markup.CorrectOfferedOnce | bot.py:134-136 | the correct language appears on exactly one button |
| Markup.Grid | bot.py:138-143 | the keyboard is two rows of two buttons which, read in order, are the four labels |
| Game.WordingsDistinct | bot.py:157-219 | the welcome, the prompt, "Correct!", the "incorrect" text and the private-chat refusal are five different texts |
| Game.Route | bot.py:218-228 | outside a private chat every message is refused; an answer is any private text other than `/start` and `/leaderboard` |
| Game.RoundOffersAnswer | bot.py:157-162 | a presented track is a "Guess this!" prompt with a 2x2 keyboard of four distinct labels including the track's language, then the audio of that path |
| Game.SendTrackEffect | bot.py:146-162 | `send_track` keeps the same users, changes no other user's row, and never changes a score |
| Game.DetectableAfterStore | bot.py:155 | storing an empty or detectable path keeps every stored path detectable |
| Game.SendTrackKeepsPending | bot.py:152-162 | with a track pending, `send_track` changes no row and presents that same track |
| Game.SendTrackDrawsNew | bot.py:152-162 | with no track pending, `send_track` stores and presents the path `choose_audio` returns, or raises with nothing stored or sent |
| Game.SendTrackStores | bot.py:152-156 | after a successful draw, only the user's path changes, to the new path |
| Game.SendTrackKeepsDetectable | bot.py:152-156 | `send_track` keeps every stored path detectable |
| Game.AnswerEffect | bot.py:164-181 | `check_answer` keeps the same users and changes no other user's row |
| Game.CorrectAnswerScores | bot.py:170-175 | a correct answer adds exactly one point and is acknowledged first |
| Game.CorrectAnswerDrawsNext | bot.py:170-178 | after a correct answer and a successful draw, the row holds score + 1 and the new path, and the new track is presented after the acknowledgement |
| Game.CorrectAnswerThenNoTrack | bot.py:172-178 | if the next draw raises, the point and the acknowledgement stay, and no track is pending |
| Game.WrongAnswerChangesNothing | bot.py:179-181 | any other answer changes no row and sends only the "incorrect" message, so the same track stays pending |
| Game.UndetectablePathNeverScores | bot.py:164-181 | when the pending path names no listed language, `get_lang` gives None, so every answer is judged incorrect and nothing changes |
| Game.AnswerKeepsDetectable | bot.py:164-181 | `check_answer` keeps every stored path detectable |
| Game.Register | bot.py:34-40 | the name has a row afterwards, and every row that existed still does |
| Game.RegisterKeepsRows | bot.py:34-40 | registration keeps every existing row, gives a new name the row (0, ""), and is idempotent |
| Game.RegisterKeepsDetectable | bot.py:34-40 | registration keeps every stored path detectable |
| Game.Render | bot.py:207-210 | the text is empty exactly when there are no names, and otherwise ends with a line break |
| Game.RenderAppend | bot.py:209-210 | appending a name appends the line `name\n` to the text |
| Game.LinesOfFirst | bot.py:209-210 | a text starting with one line and a break reads that line first |
| Game.RenderLines | bot.py:207-211 | the leaderboard text reads back as exactly the listed usernames, in order, when no username holds a line break |
| Bot.PolyglotBot.constructor | bot.py:92-95 | a bot starts with no session user and nothing sent |
| Bot.PolyglotBot.GenerateMarkup | bot.py:123-144 | the pop loop and the overwrite yield `Keyboard(...)`, laid out as two rows of two: four distinct labels, including the correct language |
| Bot.PolyglotBot.SendTrack | bot.py:146-162 | the table and the log change exactly as `SendTrackEffect` says, and `Valid()` is kept |
| Bot.PolyglotBot.CheckAnswer | bot.py:164-181 | the table and the log change exactly as `AnswerEffect` says, and `Valid()` is kept |
| Bot.PolyglotBot.ScoreAndAdvance | bot.py:171-178 | the correct-answer branch has exactly the effect `AnswerEffect` gives for a correct answer |
| Bot.PolyglotBot.AwardPoint | bot.py:172-177 | the row becomes (score + 1, ""), and "Correct!" is logged |
| Bot.PolyglotBot.HandleStart | bot.py:183-202 | the welcome message, then registration of the sender as the session user (a new name is appended to the table), then `send_track`'s effect on the registered rows |
| Bot.PolyglotBot.HandleLeaderboard | bot.py:204-211 | exactly one message is sent, holding one line per name of `get_top`, in order; `Valid()` is kept |
| Bot.PolyglotBot.HandleMessage | bot.py:213-228 | outside private chats only the refusal is sent; in a private chat `/start`, `/leaderboard` and any other text get the effects above |

## Left out

- The Telegram transport (`telepot`, `MessageLoop`, `run`), the bot token and `get_token`: the model records outgoing calls in a log instead of performing them.
- SQL text and `sqlite3` connections: the table is a map plus insertion order. `get_score` and `get_lang_path` build their queries by string concatenation, so a username containing a quote would break them; that is not modelled.
- `ORDER BY score DESC` leaves ties unordered in SQL. The model breaks ties by insertion order, one order SQLite may return.
- `CREATE TABLE` inside try/except: the table is assumed to exist (`Database.constructor` gives an empty one).
- Opening and reading audio files (`open(path, "rb")`): `SendAudio` carries the path.
- `os.listdir`: the directory listings are the `Catalogue` parameter. `os.path.join` is modelled with the `/` separator.
- `randint`: every result is a parameter of the handler (`Draws`).
- Bot.PolyglotBot.HandleMessage: requires a session user for answers and `/leaderboard`. `self.user` is not set before the first `/start` (`__init__` never assigns it), so Python raises `AttributeError`.
- Bot.PolyglotBot.SendTrack: requires every catalogue folder to be named after a language of the list (`FoldersKnown`). Otherwise `get_lang` can return None, when no listed name occurs anywhere in the drawn path, and Python would then put a `None` button on the keyboard.
- Bot.PolyglotBot.constructor: requires every path already stored in `users.db` to name a listed language (`PathsDetectable`). The source accepts any table; for a stored path such as `audio/Klingon/a.mp3`, `send_track` would put a `None` button on the keyboard. That every answer to such a path is judged incorrect is stated by `UndetectablePathNeverScores`, which does not need this assumption.
- Bot.PolyglotBot.HandleStart: requires the bot's ghost `languages` to be the 18-language list, the list every `User` is built with.
- Messages that are not text, and a chat without a username, are not modelled.
- The `User` object's `score` and `current_lang_path` fields set in `__init__` are read only to build the INSERT at bot.py:37; the model keeps only the table row.
- A language name inside a clip's file name can mask the folder's language, because the earlier name of the list wins (`TrackNameCanMaskFolder`). The model keeps this behaviour; `ChosenPathNamesFolder` states when it cannot happen.
- The docstring of `check_answer` says a wrong answer is offered a new track; the code only sends the "incorrect" message and keeps the pending track. The model follows the code.
