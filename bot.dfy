/** The bot object: the session user it serves, the table behind it, and
    the messages it has sent so far.

    Each handler is proved to change the table and the message log exactly
    as the effect functions of `Game` say, and to keep `Valid()`: the
    session user has a row, and every pending track names a language. */
module Bot {
  import opened Outcomes
  import opened LanguageDetection
  import opened UserStore
  import opened Markup
  import opened AudioCatalogue
  import opened Game

  class PolyglotBot {
    /** The `users.db` table that every `User` handle connects to. */
    const db: Database
    /** `self.user`: unset until the first `/start`. */
    var user: User?
    /** Every `sendMessage` and `sendAudio` call so far, in order. */
    var log: seq<Event>
    /** The language list every `User` handle is built with. */
    ghost const languages: seq<string>

    ghost predicate Valid()
      reads this, db
    {
      && db.Valid()
      && Distinct(languages)
      && PathsDetectable(languages, db.rows)
      && (user != null ==> user.db == db && user.username in db.rows && user.languages == languages)
    }

    /** A bot with no session user yet, on an existing table. */
    constructor (store: Database)
      requires store.Valid() && PathsDetectable(Languages, store.rows)
      ensures db == store && languages == Languages && user == null && log == [] && Valid()
    {
      LanguagesDistinct();
      db := store;
      languages := Languages;
      user := null;
      log := [];
    }

    /** `genrate_markup`: four labels popped at random from a copy of the
        language list, the correct language written over one slot if it
        was not drawn, and the labels laid out as two rows of two. */
    method GenerateMarkup(correct: string, picks: seq<int>, slot: int) returns (markup: seq<seq<string>>)
      requires user != null && KeyboardDraws(user.languages, picks, slot) && Distinct(user.languages)
      ensures markup == Grid(Keyboard(user.languages, correct, picks, slot))
      ensures |markup| == 2 && |markup[0]| == 2 && |markup[1]| == 2
      ensures Distinct(markup[0] + markup[1]) && correct in markup[0] + markup[1]
    {
      var pool := user.languages;
      var drawn: seq<string> := [];
      var copy := pool;
      var i := 0;
      while i < Buttons
        invariant 0 <= i <= Buttons
        invariant |copy| == |pool| - i
        invariant ValidPicks(|copy|, picks[i..])
        invariant drawn + Sample(copy, picks[i..]) == Sample(pool, picks)
      {
        DrawStep(copy, drawn, picks, i, Sample(pool, picks));
        var index := picks[i];
        drawn := drawn + [copy[index]];
        copy := RemoveAt(copy, index);
        i := i + 1;
      }
      assert picks[Buttons..] == [];
      assert drawn == Sample(pool, picks);
      if correct !in drawn {
        drawn := drawn[slot := correct];
      }
      markup := [[drawn[0], drawn[1]], [drawn[2], drawn[3]]];
      KeyboardOffersCorrect(pool, correct, picks, slot);
      assert markup[0] + markup[1] == drawn;
    }

    /** `send_track`: presents the pending track, or draws, stores and
        presents a new one when none is pending. */
    method SendTrack(chatId: int, cat: Catalogue, d: Draws) returns (status: Status)
      requires Valid() && user != null && FoldersKnown(languages, cat) && DrawsFit(languages, cat, d)
      modifies db, this`log
      ensures Valid() && db.order == old(db.order)
      ensures var e := SendTrackEffect(languages, old(db.rows), user.username, chatId, cat, d);
        status == e.status && db.rows == e.rows && log == old(log) + e.events
    {
      ghost var e := SendTrackEffect(languages, db.rows, user.username, chatId, cat, d);
      var path := user.GetLangPath();
      if path == "" {
        var chosen := ChooseAudio(cat, d.language, d.track);
        if chosen.Err? {
          assert e == Effect(Raised(chosen.error), db.rows, []);
          return Raised(chosen.error);
        }
        path := chosen.value;
        ChosenPathDetectable(languages, cat, d.language, d.track);
        DetectableAfterStore(languages, db.rows, user.username, db.rows[user.username].(langPath := path));
        user.SetLangPath(path);
        assert e == Effect(Done, db.rows, Round(languages, chatId, path, d));
      } else {
        assert e == Effect(Done, db.rows, Round(languages, chatId, path, d));
      }
      assert db.rows[user.username].langPath == path;
      var correct := user.GetLang();
      var markup := GenerateMarkup(correct.value, d.picks, d.slot);
      assert [SendMessage(chatId, Prompt, markup), SendAudio(chatId, path)] == Round(languages, chatId, path, d);
      log := log + [SendMessage(chatId, Prompt, markup), SendAudio(chatId, path)];
      status := Done;
    }

    /** `check_answer`: the language of the pending track, compared with
        the answer; a match scores, acknowledges and moves on to a new
        track, anything else is reported as incorrect. */
    method CheckAnswer(chatId: int, answer: string, cat: Catalogue, d: Draws) returns (status: Status)
      requires Valid() && user != null && FoldersKnown(languages, cat) && DrawsFit(languages, cat, d)
      modifies db, this`log
      ensures Valid() && db.order == old(db.order)
      ensures var e := AnswerEffect(languages, old(db.rows), user.username, chatId, answer, cat, d);
        status == e.status && db.rows == e.rows && log == old(log) + e.events
    {
      var language := user.GetLang();
      if language == Some(answer) {
        status := ScoreAndAdvance(chatId, answer, cat, d);
      } else {
        WrongAnswerChangesNothing(languages, db.rows, user.username, chatId, answer, cat, d);
        log := log + [SendMessage(chatId, Incorrect, [])];
        status := Done;
      }
    }

    /** The correct-answer branch of `check_answer`: one more point, the
        acknowledgement, the pending track cleared, and `send_track`. */
    method ScoreAndAdvance(chatId: int, ghost answer: string, cat: Catalogue, d: Draws) returns (status: Status)
      requires Valid() && user != null && FoldersKnown(languages, cat) && DrawsFit(languages, cat, d)
      requires user.GetLang() == Some(answer)
      modifies db, this`log
      ensures Valid() && db.order == old(db.order)
      ensures var e := AnswerEffect(languages, old(db.rows), user.username, chatId, answer, cat, d);
        status == e.status && db.rows == e.rows && log == old(log) + e.events
    {
      ghost var rows0, log0 := db.rows, log;
      ghost var u := user.username;
      ghost var reset := rows0[u := Record(rows0[u].score + 1, "")];
      ghost var next := SendTrackEffect(languages, reset, u, chatId, cat, d);
      CorrectAnswerUnfolds(languages, rows0, u, chatId, answer, cat, d);
      AwardPoint(chatId);
      assert db.rows == reset && user.username == u;
      status := SendTrack(chatId, cat, d);
      LogThenEffect(log0, SendMessage(chatId, Correct, []), next.events);
    }

    /** `increase_score`, the "correct" message and `set_lang_path("")`:
        the row holds one more point and no pending track. */
    method AwardPoint(chatId: int)
      requires Valid() && user != null
      modifies db, this`log
      ensures Valid() && db.order == old(db.order)
      ensures var u := user.username;
        db.rows == old(db.rows)[u := Record(old(db.rows)[u].score + 1, "")]
      ensures log == old(log) + [SendMessage(chatId, Correct, [])]
    {
      ghost var rows0 := db.rows;
      ghost var u := user.username;
      ScoreThenClear(rows0, u);
      DetectableAfterStore(languages, rows0, u, Record(rows0[u].score + 1, ""));
      user.IncreaseScore();
      log := log + [SendMessage(chatId, Correct, [])];
      user.SetLangPath("");
    }

    /** `handle_start`: greets, registers the sender (keeping an existing
        row) as the session user, and sends the track to guess. The new
        `User` carries the 18-language list, which must be the bot's. */
    method HandleStart(msg: Message, cat: Catalogue, d: Draws) returns (status: Status)
      requires Valid() && languages == Languages && FoldersKnown(languages, cat) && DrawsFit(languages, cat, d)
      modifies this, db
      ensures Valid() && user != null && user.username == msg.username
      ensures db.order == old(db.order) + (if msg.username in old(db.rows) then [] else [msg.username])
      ensures var e := SendTrackEffect(languages, Register(old(db.rows), msg.username), msg.username, msg.chatId, cat, d);
        && status == e.status && db.rows == e.rows
        && log == old(log) + [SendMessage(msg.chatId, Welcome, [])] + e.events
    {
      log := log + [SendMessage(msg.chatId, Welcome, [])];
      ghost var before := db.rows;
      user := new User(msg.username, db);
      RegisterKeepsDetectable(languages, before, msg.username);
      assert db.rows == Register(before, msg.username);
      status := SendTrack(msg.chatId, cat, d);
    }

    /** `handle_leaderboard`: one line per name of `get_top`, sent as one
        message. */
    method HandleLeaderboard(chatId: int)
      requires Valid() && user != null
      modifies this`log
      ensures Valid()
      ensures log == old(log) + [SendMessage(chatId, Leaderboard(Render(TopScores(db.rows, db.order))), [])]
    {
      var text := "";
      var top := user.GetTop();
      var i := 0;
      while i < |top|
        invariant 0 <= i <= |top|
        invariant text == Render(top[..i])
        invariant log == old(log)
      {
        RenderAppend(top[..i], top[i]);
        assert top[..i + 1] == top[..i] + [top[i]];
        text := text + top[i] + "\n";
        i := i + 1;
      }
      assert top[..|top|] == top;
      log := log + [SendMessage(chatId, Leaderboard(text), [])];
    }

    /** `handle_message`: outside private chats only a refusal is sent;
        in a private chat `/start` and `/leaderboard` are commands and any
        other text is an answer. */
    method HandleMessage(msg: Message, cat: Catalogue, d: Draws) returns (status: Status)
      requires Valid() && languages == Languages && FoldersKnown(languages, cat) && DrawsFit(languages, cat, d)
      requires msg.chatType == PrivateChat && msg.text != StartCommand ==> user != null
      modifies this, db
      ensures Valid() && db.order == old(db.order) + (if Route(msg) == Start && msg.username !in old(db.rows) then [msg.username] else [])
      ensures Route(msg) == Refuse ==>
        && status == Done && user == old(user) && db.rows == old(db.rows)
        && log == old(log) + [SendMessage(msg.chatId, PrivateOnly, [])]
      ensures Route(msg) == Start ==>
        var e := SendTrackEffect(languages, Register(old(db.rows), msg.username), msg.username, msg.chatId, cat, d);
        && user != null && user.username == msg.username
        && status == e.status && db.rows == e.rows
        && log == old(log) + [SendMessage(msg.chatId, Welcome, [])] + e.events
      ensures Route(msg) == ShowLeaderboard ==>
        && status == Done && user == old(user) && db.rows == old(db.rows)
        && log == old(log) + [SendMessage(msg.chatId, Leaderboard(Render(TopScores(db.rows, db.order))), [])]
      ensures Route(msg) == Answer ==>
        var e := AnswerEffect(languages, old(db.rows), old(user).username, msg.chatId, msg.text, cat, d);
        && user == old(user)
        && status == e.status && db.rows == e.rows
        && log == old(log) + e.events
    {
      if msg.chatType != PrivateChat {
        log := log + [SendMessage(msg.chatId, PrivateOnly, [])];
        status := Done;
      } else if msg.text == StartCommand {
        status := HandleStart(msg, cat, d);
      } else if msg.text == LeaderboardCommand {
        HandleLeaderboard(msg.chatId);
        status := Done;
      } else {
        status := CheckAnswer(msg.chatId, msg.text, cat, d);
      }
    }
  }
}
