/** What one round of the quiz does to the table and what it sends.

    A user with an empty stored path has no pending round; a non-empty
    path means the bot awaits the language of that track. The functions
    here give the effect of `send_track` and `check_answer` on the table
    and the messages they send; the `PolyglotBot` methods are proved to
    have exactly these effects. */
module Game {
  import opened Outcomes
  import opened LanguageDetection
  import opened UserStore
  import opened Markup
  import opened AudioCatalogue

  const PrivateChat := "private"
  const StartCommand := "/start"
  const LeaderboardCommand := "/leaderboard"

  /** The texts the bot sends; `Leaderboard` carries the rendered list. */
  datatype Text = Welcome | Prompt | Correct | Incorrect | PrivateOnly | Leaderboard(body: string)

  const WelcomeWording := "Hey there! I am PolyglotBot. Do you want to play a game? You need to guess language of audio I send to you. Let's start."
  const PromptWording := "Guess this!"
  const CorrectWording := "Correct!"
  const IncorrectWording := "You answer is incorrect. Try again."
  const PrivateOnlyWording := "You can play only in private chats."

  /** The wording of each text. */
  function Wording(t: Text): string {
    match t
    case Welcome => WelcomeWording
    case Prompt => PromptWording
    case Correct => CorrectWording
    case Incorrect => IncorrectWording
    case PrivateOnly => PrivateOnlyWording
    case Leaderboard(body) => body
  }

  /** The five fixed texts read differently, so the user can tell a
      welcome, a prompt, a correct and an incorrect answer and a refusal
      apart. */
  lemma WordingsDistinct()
    ensures Wording(Welcome) != Wording(Prompt) && Wording(Welcome) != Wording(Correct)
    ensures Wording(Welcome) != Wording(Incorrect) && Wording(Welcome) != Wording(PrivateOnly)
    ensures Wording(Prompt) != Wording(Correct) && Wording(Prompt) != Wording(Incorrect)
    ensures Wording(Prompt) != Wording(PrivateOnly) && Wording(Correct) != Wording(Incorrect)
    ensures Wording(Correct) != Wording(PrivateOnly) && Wording(Incorrect) != Wording(PrivateOnly)
  {
    WordingShapes();
  }

  /** The lengths of the fixed texts, and where the two of equal length differ. */
  lemma WordingShapes()
    ensures |PromptWording| == 11 && |CorrectWording| == 8 && |WelcomeWording| > 35
    ensures |IncorrectWording| == 35 && |PrivateOnlyWording| == 35
    ensures IncorrectWording[4] == 'a' && PrivateOnlyWording[4] == 'c'
  {
  }

  /** An outbound call: `sendMessage` (with the rows of its reply
      keyboard, none when empty) or `sendAudio` of the file at `path`. */
  datatype Event =
    | SendMessage(chat: int, text: Text, keyboard: seq<seq<string>>)
    | SendAudio(chat: int, path: string)

  /** An inbound message, as far as the bot looks at it. */
  datatype Message = Message(chatId: int, chatType: string, username: string, text: string)

  /** Which handler `handle_message` passes a message to. */
  datatype Handler = Refuse | Start | ShowLeaderboard | Answer

  function Route(msg: Message): (h: Handler)
    ensures h == Refuse <==> msg.chatType != PrivateChat
    ensures h == Answer ==> msg.text != StartCommand && msg.text != LeaderboardCommand
  {
    if msg.chatType != PrivateChat then Refuse
    else if msg.text == StartCommand then Start
    else if msg.text == LeaderboardCommand then ShowLeaderboard
    else Answer
  }

  /** The `randint` results one message may use: the folder and file of a
      new track, and the draws of the keyboard. */
  datatype Draws = Draws(language: int, track: int, picks: seq<int>, slot: int)

  predicate DrawsFit(languages: seq<string>, cat: Catalogue, d: Draws) {
    AudioDrawsFit(cat, d.language, d.track) && KeyboardDraws(languages, d.picks, d.slot)
  }

  /** How a handler ended: normally, or by an exception that stopped it. */
  datatype Status = Done | Raised(error: Error)

  /** The new table rows, the messages sent and how the handler ended. */
  datatype Effect = Effect(status: Status, rows: map<string, Record>, events: seq<Event>)

  /** Every pending track names a language that `get_lang` can find. */
  predicate PathsDetectable(languages: seq<string>, rows: map<string, Record>) {
    forall u :: u in rows ==> Detectable(languages, rows[u].langPath)
  }

  /** No track is pending, or `get_lang` finds the language of the pending one. */
  predicate Detectable(languages: seq<string>, path: string) {
    path != "" ==> LanguageOf(languages, path).Some?
  }

  /** The two messages that present a pending track. */
  function Round(languages: seq<string>, chat: int, path: string, d: Draws): seq<Event>
    requires LanguageOf(languages, path).Some? && KeyboardDraws(languages, d.picks, d.slot)
  {
    [SendMessage(chat, Prompt, Grid(Keyboard(languages, LanguageOf(languages, path).value, d.picks, d.slot))), SendAudio(chat, path)]
  }

  /** `events` present the track at `path`: the prompt with a 2x2
      keyboard of four distinct labels that include the track's language,
      then the audio itself. */
  predicate RoundSent(languages: seq<string>, chat: int, path: string, events: seq<Event>) {
    && path != ""
    && LanguageOf(languages, path).Some?
    && |events| == 2
    && events[0].SendMessage? && events[0].chat == chat && events[0].text == Prompt
    && |events[0].keyboard| == 2 && |events[0].keyboard[0]| == 2 && |events[0].keyboard[1]| == 2
    && (var labels := events[0].keyboard[0] + events[0].keyboard[1];
        Distinct(labels) && LanguageOf(languages, path).value in labels)
    && events[1] == SendAudio(chat, path)
  }

  lemma RoundOffersAnswer(languages: seq<string>, chat: int, path: string, d: Draws)
    requires path != "" && LanguageOf(languages, path).Some? && KeyboardDraws(languages, d.picks, d.slot) && Distinct(languages)
    ensures RoundSent(languages, chat, path, Round(languages, chat, path, d))
  {
    KeyboardOffersCorrect(languages, LanguageOf(languages, path).value, d.picks, d.slot);
  }

  /** `send_track` for user `u`: keeps a pending track, or draws and stores
      a new one when none is pending, then presents it. Only `u`'s stored
      path can change. */
  function SendTrackEffect(languages: seq<string>, rows: map<string, Record>, u: string, chat: int, cat: Catalogue, d: Draws): (e: Effect)
    requires u in rows && FoldersKnown(languages, cat) && DrawsFit(languages, cat, d)
    requires Detectable(languages, rows[u].langPath)
    ensures e.rows.Keys == rows.Keys
    ensures forall v :: v in rows && v != u ==> e.rows[v] == rows[v]
    ensures e.rows[u].score == rows[u].score
  {
    var pending := rows[u].langPath;
    if pending != "" then
      Effect(Done, rows, Round(languages, chat, pending, d))
    else
      match ChooseAudio(cat, d.language, d.track)
      case Err(err) => Effect(Raised(err), rows, [])
      case Ok(path) =>
        ChosenPathDetectable(languages, cat, d.language, d.track);
        Effect(Done, rows[u := rows[u].(langPath := path)], Round(languages, chat, path, d))
  }

  /** Storing one row whose path is detectable or empty keeps the
      invariant. */
  lemma DetectableAfterStore(languages: seq<string>, rows: map<string, Record>, u: string, r: Record)
    requires PathsDetectable(languages, rows) && Detectable(languages, r.langPath)
    ensures PathsDetectable(languages, rows[u := r])
  {
    var stored := rows[u := r];
    forall v | v in stored ensures Detectable(languages, stored[v].langPath) {
      if v != u { assert stored[v] == rows[v]; }
    }
  }

  /** With a track pending, `send_track` changes nothing in the table and
      presents that same track again. */
  lemma SendTrackKeepsPending(languages: seq<string>, rows: map<string, Record>, u: string, chat: int, cat: Catalogue, d: Draws)
    requires u in rows && FoldersKnown(languages, cat) && DrawsFit(languages, cat, d) && Distinct(languages)
    requires rows[u].langPath != "" && LanguageOf(languages, rows[u].langPath).Some?
    ensures var e := SendTrackEffect(languages, rows, u, chat, cat, d);
      e.status == Done && e.rows == rows && RoundSent(languages, chat, rows[u].langPath, e.events)
  {
    RoundOffersAnswer(languages, chat, rows[u].langPath, d);
  }

  /** With no track pending, `send_track` stores the path `choose_audio`
      returns and presents it, or raises with nothing stored or sent when
      the catalogue or the drawn folder is empty. */
  lemma SendTrackDrawsNew(languages: seq<string>, rows: map<string, Record>, u: string, chat: int, cat: Catalogue, d: Draws)
    requires u in rows && FoldersKnown(languages, cat) && DrawsFit(languages, cat, d) && Distinct(languages)
    requires rows[u].langPath == ""
    ensures var e := SendTrackEffect(languages, rows, u, chat, cat, d);
      match ChooseAudio(cat, d.language, d.track)
      case Err(err) => e.status == Raised(err) && e.rows == rows && e.events == []
      case Ok(path) =>
        && e.status == Done
        && e.rows == rows[u := rows[u].(langPath := path)]
        && RoundSent(languages, chat, path, e.events)
  {
    var r := ChooseAudio(cat, d.language, d.track);
    if r.Ok? {
      ChosenPathDetectable(languages, cat, d.language, d.track);
      RoundOffersAnswer(languages, chat, r.value, d);
    }
  }

  /** Whatever happens, `send_track` keeps every pending path detectable. */
  lemma SendTrackKeepsDetectable(languages: seq<string>, rows: map<string, Record>, u: string, chat: int, cat: Catalogue, d: Draws)
    requires u in rows && PathsDetectable(languages, rows) && FoldersKnown(languages, cat) && DrawsFit(languages, cat, d)
    ensures PathsDetectable(languages, SendTrackEffect(languages, rows, u, chat, cat, d).rows)
  {
    if rows[u].langPath == "" && ChooseAudio(cat, d.language, d.track).Ok? {
      var path := ChooseAudio(cat, d.language, d.track).value;
      ChosenPathDetectable(languages, cat, d.language, d.track);
      DetectableAfterStore(languages, rows, u, rows[u].(langPath := path));
    }
  }

  /** `check_answer` for user `u`: a correct answer scores one point,
      clears the pending track and presents a new one; any other answer
      only tells the user so. */
  function AnswerEffect(languages: seq<string>, rows: map<string, Record>, u: string, chat: int, answer: string, cat: Catalogue, d: Draws): (e: Effect)
    requires u in rows && FoldersKnown(languages, cat) && DrawsFit(languages, cat, d)
    ensures e.rows.Keys == rows.Keys
    ensures forall v :: v in rows && v != u ==> e.rows[v] == rows[v]
  {
    if Some(answer) == LanguageOf(languages, rows[u].langPath) then
      var reset := rows[u := Record(rows[u].score + 1, "")];
      var next := SendTrackEffect(languages, reset, u, chat, cat, d);
      Effect(next.status, next.rows, [SendMessage(chat, Correct, [])] + next.events)
    else
      Effect(Done, rows, [SendMessage(chat, Incorrect, [])])
  }

  /** Logging one message and then an effect's events is logging the
      message followed by those events. */
  lemma LogThenEffect(log: seq<Event>, first: Event, events: seq<Event>)
    ensures log + [first] + events == log + ([first] + events)
  {
  }

  /** A correct answer resets the pending track, scores, and runs `send_track`. */
  lemma CorrectAnswerUnfolds(languages: seq<string>, rows: map<string, Record>, u: string, chat: int, answer: string, cat: Catalogue, d: Draws)
    requires u in rows && FoldersKnown(languages, cat) && DrawsFit(languages, cat, d)
    requires Some(answer) == LanguageOf(languages, rows[u].langPath)
    ensures var next := SendTrackEffect(languages, rows[u := Record(rows[u].score + 1, "")], u, chat, cat, d);
      AnswerEffect(languages, rows, u, chat, answer, cat, d) == Effect(next.status, next.rows, [SendMessage(chat, Correct, [])] + next.events)
  {
  }

  /** A correct answer adds exactly one point and acknowledges it. */
  lemma CorrectAnswerScores(languages: seq<string>, rows: map<string, Record>, u: string, chat: int, answer: string, cat: Catalogue, d: Draws)
    requires u in rows && FoldersKnown(languages, cat) && DrawsFit(languages, cat, d)
    requires Some(answer) == LanguageOf(languages, rows[u].langPath)
    ensures var e := AnswerEffect(languages, rows, u, chat, answer, cat, d);
      && e.rows[u].score == rows[u].score + 1
      && |e.events| >= 1 && e.events[0] == SendMessage(chat, Correct, [])
  {
    CorrectAnswerUnfolds(languages, rows, u, chat, answer, cat, d);
  }

  lemma UpdateTwice(rows: map<string, Record>, u: string, a: Record, b: Record)
    ensures rows[u := a][u := b] == rows[u := b]
  {
  }

  /** `increase_score` followed by `set_lang_path("")` stores the reset row. */
  lemma ScoreThenClear(rows: map<string, Record>, u: string)
    requires u in rows
    ensures var scored := rows[u := rows[u].(score := rows[u].score + 1)];
      scored[u := scored[u].(langPath := "")] == rows[u := Record(rows[u].score + 1, "")]
  {
  }

  /** With no track pending and a successful draw, `send_track` stores the
      new path in `u`'s row and presents it. */
  lemma SendTrackStores(languages: seq<string>, rows: map<string, Record>, u: string, chat: int, cat: Catalogue, d: Draws)
    requires u in rows && FoldersKnown(languages, cat) && DrawsFit(languages, cat, d) && Distinct(languages)
    requires rows[u].langPath == "" && ChooseAudio(cat, d.language, d.track).Ok?
    ensures var e := SendTrackEffect(languages, rows, u, chat, cat, d);
      var path := ChooseAudio(cat, d.language, d.track).value;
      && e.status == Done
      && e.rows == rows[u := Record(rows[u].score, path)]
      && RoundSent(languages, chat, path, e.events)
  {
    SendTrackDrawsNew(languages, rows, u, chat, cat, d);
  }

  /** After a correct answer the fresh track `choose_audio` draws is stored
      and presented. */
  lemma CorrectAnswerDrawsNext(languages: seq<string>, rows: map<string, Record>, u: string, chat: int, answer: string, cat: Catalogue, d: Draws)
    requires u in rows && FoldersKnown(languages, cat) && DrawsFit(languages, cat, d) && Distinct(languages)
    requires Some(answer) == LanguageOf(languages, rows[u].langPath)
    requires ChooseAudio(cat, d.language, d.track).Ok?
    ensures var e := AnswerEffect(languages, rows, u, chat, answer, cat, d);
      var path := ChooseAudio(cat, d.language, d.track).value;
      && e.status == Done
      && e.rows == rows[u := Record(rows[u].score + 1, path)]
      && |e.events| == 3
      && RoundSent(languages, chat, path, e.events[1..])
  {
    var reset := rows[u := Record(rows[u].score + 1, "")];
    CorrectAnswerUnfolds(languages, rows, u, chat, answer, cat, d);
    SendTrackStores(languages, reset, u, chat, cat, d);
    var e := AnswerEffect(languages, rows, u, chat, answer, cat, d);
    var path := ChooseAudio(cat, d.language, d.track).value;
    UpdateTwice(rows, u, Record(rows[u].score + 1, ""), Record(rows[u].score + 1, path));
    assert e.events[1..] == SendTrackEffect(languages, reset, u, chat, cat, d).events;
  }

  /** If that draw raises, the point stays and no track is pending. */
  lemma CorrectAnswerThenNoTrack(languages: seq<string>, rows: map<string, Record>, u: string, chat: int, answer: string, cat: Catalogue, d: Draws)
    requires u in rows && FoldersKnown(languages, cat) && DrawsFit(languages, cat, d)
    requires Some(answer) == LanguageOf(languages, rows[u].langPath)
    requires ChooseAudio(cat, d.language, d.track).Err?
    ensures var e := AnswerEffect(languages, rows, u, chat, answer, cat, d);
      && e.status == Raised(ChooseAudio(cat, d.language, d.track).error)
      && e.rows == rows[u := Record(rows[u].score + 1, "")]
      && e.events == [SendMessage(chat, Correct, [])]
  {
    var reset := rows[u := Record(rows[u].score + 1, "")];
    CorrectAnswerUnfolds(languages, rows, u, chat, answer, cat, d);
    assert reset[u].langPath == "";
    assert SendTrackEffect(languages, reset, u, chat, cat, d) == Effect(Raised(ChooseAudio(cat, d.language, d.track).error), reset, []);
  }

  /** Any other answer, including one given while no track is pending,
      changes nothing and only sends the "incorrect" message. */
  lemma WrongAnswerChangesNothing(languages: seq<string>, rows: map<string, Record>, u: string, chat: int, answer: string, cat: Catalogue, d: Draws)
    requires u in rows && FoldersKnown(languages, cat) && DrawsFit(languages, cat, d)
    requires Some(answer) != LanguageOf(languages, rows[u].langPath)
    ensures AnswerEffect(languages, rows, u, chat, answer, cat, d) == Effect(Done, rows, [SendMessage(chat, Incorrect, [])])
  {
  }

  /** A pending path that names no listed language can never be answered
      correctly: whatever the user sends, only "incorrect" comes back and
      the row keeps that path. */
  lemma UndetectablePathNeverScores(languages: seq<string>, rows: map<string, Record>, u: string, chat: int, answer: string, cat: Catalogue, d: Draws)
    requires u in rows && FoldersKnown(languages, cat) && DrawsFit(languages, cat, d)
    requires !Detectable(languages, rows[u].langPath)
    ensures AnswerEffect(languages, rows, u, chat, answer, cat, d) == Effect(Done, rows, [SendMessage(chat, Incorrect, [])])
  {
    WrongAnswerChangesNothing(languages, rows, u, chat, answer, cat, d);
  }

  /** Whatever the answer, `check_answer` keeps every pending path detectable. */
  lemma AnswerKeepsDetectable(languages: seq<string>, rows: map<string, Record>, u: string, chat: int, answer: string, cat: Catalogue, d: Draws)
    requires u in rows && PathsDetectable(languages, rows) && FoldersKnown(languages, cat) && DrawsFit(languages, cat, d)
    ensures PathsDetectable(languages, AnswerEffect(languages, rows, u, chat, answer, cat, d).rows)
  {
    if Some(answer) == LanguageOf(languages, rows[u].langPath) {
      var reset := rows[u := Record(rows[u].score + 1, "")];
      DetectableAfterStore(languages, rows, u, Record(rows[u].score + 1, ""));
      SendTrackKeepsDetectable(languages, reset, u, chat, cat, d);
    }
  }

  /** The insert-if-absent of the `User` constructor. */
  function Register(rows: map<string, Record>, name: string): (r: map<string, Record>)
    ensures name in r && rows.Keys <= r.Keys
  {
    if name in rows then rows else rows[name := NewRecord]
  }

  /** Registering keeps every existing row and gives a new name a fresh
      row, so registering twice is the same as registering once. */
  lemma RegisterKeepsRows(rows: map<string, Record>, name: string)
    ensures var r := Register(rows, name);
      && r.Keys == rows.Keys + {name}
      && (forall v :: v in rows ==> r[v] == rows[v])
      && (name !in rows ==> r[name] == NewRecord)
      && Register(r, name) == r
  {
  }

  /** A fresh row has no pending track, so registering keeps the invariant. */
  lemma RegisterKeepsDetectable(languages: seq<string>, rows: map<string, Record>, name: string)
    requires PathsDetectable(languages, rows)
    ensures PathsDetectable(languages, Register(rows, name))
  {
    if name !in rows {
      DetectableAfterStore(languages, rows, name, NewRecord);
    }
  }

  /** The leaderboard text: one username per line. */
  function Render(names: seq<string>): (text: string)
    ensures text == "" <==> names == []
    ensures names != [] ==> text[|text| - 1] == '\n'
  {
    if names == [] then "" else names[0] + "\n" + Render(names[1..])
  }

  lemma {:induction false} RenderAppend(names: seq<string>, name: string)
    ensures Render(names + [name]) == Render(names) + name + "\n"
  {
    if names != [] {
      assert (names + [name])[1..] == names[1..] + [name];
      RenderAppend(names[1..], name);
    } else {
      assert names + [name] == [name];
    }
  }

  /** The first index of `c` in `s`. */
  function IndexOf(s: string, c: char): (i: nat)
    requires c in s
    ensures i < |s| && s[i] == c && c !in s[..i]
  {
    if s[0] == c then 0
    else
      assert c in s[1..] by { var k :| 0 <= k < |s| && s[k] == c; assert s[1..][k - 1] == c; }
      var i := 1 + IndexOf(s[1..], c);
      assert s[..i] == [s[0]] + s[1..][..i - 1];
      i
  }

  /** Reads newline-terminated lines back from a text. */
  function Lines(s: string): seq<string>
    decreases |s|
  {
    if '\n' !in s then (if s == "" then [] else [s])
    else
      var i := IndexOf(s, '\n');
      [s[..i]] + Lines(s[i + 1..])
  }

  /** A line with no line break in it, then the break, then the rest:
      the line is read first. */
  lemma LinesOfFirst(line: string, rest: string)
    requires '\n' !in line
    ensures Lines(line + "\n" + rest) == [line] + Lines(rest)
  {
    var text := line + "\n" + rest;
    assert text[|line|] == '\n';
    assert text[..|line|] == line;
    assert IndexOf(text, '\n') == |line|;
    assert text[|line| + 1..] == rest;
  }

  /** The leaderboard text lists exactly the given usernames, in order,
      when no username contains a line break. */
  lemma {:induction false} RenderLines(names: seq<string>)
    requires forall k :: 0 <= k < |names| ==> '\n' !in names[k]
    ensures Lines(Render(names)) == names
  {
    if names != [] {
      LinesOfFirst(names[0], Render(names[1..]));
      RenderLines(names[1..]);
    }
  }
}
