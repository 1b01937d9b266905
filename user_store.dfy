/** The `Users` table and the `User` handle that reads and writes one row of it.

    The table is a map from username to its row, plus the order in which
    the rows were inserted (SQLite's rowid order), which decides ties when
    the leaderboard sorts by score. */
module UserStore {
  import opened Outcomes
  import opened LanguageDetection

  /** One row of `Users`: `score` and `current_lang_path`. */
  datatype Record = Record(score: nat, langPath: string)

  /** A freshly inserted row: score 0 and no pending track. */
  const NewRecord := Record(0, "")

  /** `LIMIT 10` of the leaderboard query. */
  const TopLimit := 10

  /** The `Users` table of `users.db`; `username` is UNIQUE. */
  class Database {
    var rows: map<string, Record>
    var order: seq<string>

    /** Every username has exactly one row, listed once in insertion order. */
    ghost predicate Valid()
      reads this
    {
      Distinct(order) && forall u :: u in rows <==> u in order
    }

    /** An empty table, as `CREATE TABLE Users` leaves it. */
    constructor ()
      ensures Valid() && rows == map[] && order == []
    {
      rows := map[];
      order := [];
    }

    /** `INSERT INTO Users`: refused when the name is already present,
        because of the UNIQUE constraint. */
    method Insert(name: string, rec: Record) returns (inserted: bool)
      requires Valid()
      modifies this
      ensures Valid()
      ensures inserted <==> name !in old(rows)
      ensures inserted ==> rows == old(rows)[name := rec] && order == old(order) + [name]
      ensures !inserted ==> rows == old(rows) && order == old(order)
    {
      inserted := name !in rows;
      if inserted {
        rows := rows[name := rec];
        order := order + [name];
      }
    }

    /** `UPDATE Users SET score = ? WHERE username = ?`: no row matches an
        unknown name, and then nothing changes. */
    method UpdateScore(name: string, score: nat)
      requires Valid()
      modifies this
      ensures Valid() && order == old(order)
      ensures name in old(rows) ==> rows == old(rows)[name := old(rows)[name].(score := score)]
      ensures name !in old(rows) ==> rows == old(rows)
    {
      if name in rows {
        rows := rows[name := rows[name].(score := score)];
      }
    }

    /** `UPDATE Users SET current_lang_path = ? WHERE username = ?`. */
    method UpdatePath(name: string, path: string)
      requires Valid()
      modifies this
      ensures Valid() && order == old(order)
      ensures name in old(rows) ==> rows == old(rows)[name := old(rows)[name].(langPath := path)]
      ensures name !in old(rows) ==> rows == old(rows)
    {
      if name in rows {
        rows := rows[name := rows[name].(langPath := path)];
      }
    }
  }

  /** A user's handle on the table: the username, the connection and the
      list of languages the quiz draws from. */
  class User {
    const username: string
    const db: Database
    const languages: seq<string>

    /** The user's row exists: the constructor always leaves one behind. */
    ghost predicate Valid()
      reads db
    {
      db.Valid() && username in db.rows
    }

    /** Inserts `(username, 0, "")` unless the name already has a row, in
        which case the failed insert is ignored and the row is kept. */
    constructor (username: string, store: Database)
      requires store.Valid()
      modifies store
      ensures this.username == username && db == store && languages == Languages && Valid()
      ensures username in old(store.rows) ==> store.rows == old(store.rows) && store.order == old(store.order)
      ensures username !in old(store.rows) ==>
        store.rows == old(store.rows)[username := NewRecord] && store.order == old(store.order) + [username]
    {
      this.username := username;
      db := store;
      languages := Languages;
      new;
      var _ := store.Insert(username, NewRecord);
    }

    method GetScore() returns (score: nat)
      requires Valid()
      ensures score == db.rows[username].score
    {
      score := db.rows[username].score;
    }

    /** Reads the score, adds one and writes it back. */
    method IncreaseScore()
      requires Valid()
      modifies db
      ensures Valid() && db.order == old(db.order)
      ensures db.rows == old(db.rows)[username := old(db.rows)[username].(score := old(db.rows)[username].score + 1)]
    {
      var oldScore := GetScore();
      var newScore := oldScore + 1;
      db.UpdateScore(username, newScore);
    }

    method GetLangPath() returns (path: string)
      requires Valid()
      ensures path == db.rows[username].langPath
    {
      path := db.rows[username].langPath;
    }

    method SetLangPath(path: string)
      requires Valid()
      modifies db
      ensures Valid() && db.order == old(db.order)
      ensures db.rows == old(db.rows)[username := old(db.rows)[username].(langPath := path)]
    {
      db.UpdatePath(username, path);
    }

    /** The language of the pending track: the earliest entry of
        `languages` that is a substring of the stored path, or None. */
    function GetLang(): (r: Option<string>)
      reads db
      requires Valid()
      ensures r.Some? ==> r.value in languages && Occurs(r.value, db.rows[username].langPath)
    {
      LanguageOf(languages, db.rows[username].langPath)
    }

    /** At most ten usernames, best score first. */
    function GetTop(): (top: seq<string>)
      reads db
      requires db.Valid()
      ensures |top| <= TopLimit
      ensures forall i :: 0 <= i < |top| ==> top[i] in db.rows
      ensures SortedByScore(db.rows, top)
    {
      TopScoresShape(db.rows, db.order);
      TopScores(db.rows, db.order)
    }
  }

  /** The score of `u`, 0 for a name without a row. */
  function ScoreOf(rows: map<string, Record>, u: string): nat {
    if u in rows then rows[u].score else 0
  }

  /** Scores never increase along `s`. */
  predicate SortedByScore(rows: map<string, Record>, s: seq<string>) {
    forall i, j :: 0 <= i < j < |s| ==> ScoreOf(rows, s[i]) >= ScoreOf(rows, s[j])
  }

  /** Puts `u` after every leading name whose score is at least `u`'s, so
      that equal scores keep their insertion order. */
  function InsertByScore(rows: map<string, Record>, u: string, s: seq<string>): (r: seq<string>)
    ensures multiset(r) == multiset(s) + multiset{u}
  {
    if s == [] then [u]
    else if ScoreOf(rows, s[0]) >= ScoreOf(rows, u) then
      assert s == [s[0]] + s[1..];
      [s[0]] + InsertByScore(rows, u, s[1..])
    else [u] + s
  }

  /** `ORDER BY score DESC` over the rows in insertion order. */
  function SortByScore(rows: map<string, Record>, xs: seq<string>): (r: seq<string>)
    ensures multiset(r) == multiset(xs)
  {
    if xs == [] then []
    else
      assert xs == xs[..|xs| - 1] + [xs[|xs| - 1]];
      InsertByScore(rows, xs[|xs| - 1], SortByScore(rows, xs[..|xs| - 1]))
  }

  /** The `get_top` query: the sorted names cut at `TopLimit`. */
  function TopScores(rows: map<string, Record>, order: seq<string>): (top: seq<string>)
    ensures |top| == if |order| <= TopLimit then |order| else TopLimit
  {
    var sorted := SortByScore(rows, order);
    assert |sorted| == |order| by {
      assert |multiset(sorted)| == |multiset(order)|;
    }
    if |sorted| <= TopLimit then sorted else sorted[..TopLimit]
  }

  lemma SortedTail(rows: map<string, Record>, s: seq<string>)
    requires s != [] && SortedByScore(rows, s)
    ensures SortedByScore(rows, s[1..])
  {
    var rest := s[1..];
    forall i, j | 0 <= i < j < |rest| ensures ScoreOf(rows, rest[i]) >= ScoreOf(rows, rest[j]) {
      assert rest[i] == s[i + 1] && rest[j] == s[j + 1];
    }
  }

  /** A name scoring at least as much as every name of a sorted list can
      go in front of it. */
  lemma SortedCons(rows: map<string, Record>, h: string, t: seq<string>)
    requires SortedByScore(rows, t)
    requires forall x :: x in t ==> ScoreOf(rows, h) >= ScoreOf(rows, x)
    ensures SortedByScore(rows, [h] + t)
  {
    var r := [h] + t;
    forall i, j | 0 <= i < j < |r|
      ensures ScoreOf(rows, r[i]) >= ScoreOf(rows, r[j])
    {
      assert r[j] == t[j - 1];
      if i > 0 {
        assert r[i] == t[i - 1];
      }
    }
  }

  /** Every name of `InsertByScore(rows, u, s)` is `u` or a name of `s`. */
  lemma InsertedFrom(rows: map<string, Record>, u: string, s: seq<string>, x: string)
    requires x in InsertByScore(rows, u, s)
    ensures x == u || x in s
  {
    assert x in multiset(InsertByScore(rows, u, s));
    if x != u {
      assert x in multiset(s);
    }
  }

  lemma {:induction false} InsertKeepsSorted(rows: map<string, Record>, u: string, s: seq<string>)
    requires SortedByScore(rows, s)
    ensures SortedByScore(rows, InsertByScore(rows, u, s))
  {
    if s != [] && ScoreOf(rows, s[0]) >= ScoreOf(rows, u) {
      SortedTail(rows, s);
      InsertKeepsSorted(rows, u, s[1..]);
      var tail := InsertByScore(rows, u, s[1..]);
      forall x | x in tail
        ensures ScoreOf(rows, s[0]) >= ScoreOf(rows, x)
      {
        InsertedFrom(rows, u, s[1..], x);
      }
      SortedCons(rows, s[0], tail);
    }
  }

  lemma {:induction false} SortIsSorted(rows: map<string, Record>, xs: seq<string>)
    ensures SortedByScore(rows, SortByScore(rows, xs))
  {
    if xs != [] {
      SortIsSorted(rows, xs[..|xs| - 1]);
      InsertKeepsSorted(rows, xs[|xs| - 1], SortByScore(rows, xs[..|xs| - 1]));
    }
  }

  lemma {:induction false} InsertKeepsDistinct(rows: map<string, Record>, u: string, s: seq<string>)
    requires Distinct(s) && u !in s
    ensures Distinct(InsertByScore(rows, u, s))
  {
    if s != [] && ScoreOf(rows, s[0]) >= ScoreOf(rows, u) {
      InsertKeepsDistinct(rows, u, s[1..]);
      var tail := InsertByScore(rows, u, s[1..]);
      forall j | 0 <= j < |tail|
        ensures tail[j] != s[0]
      {
        assert tail[j] in multiset(tail);
        if tail[j] != u {
          assert tail[j] in multiset(s[1..]);
        }
      }
    }
  }

  lemma {:induction false} SortKeepsDistinct(rows: map<string, Record>, xs: seq<string>)
    requires Distinct(xs)
    ensures Distinct(SortByScore(rows, xs))
  {
    if xs != [] {
      var init, last := xs[..|xs| - 1], xs[|xs| - 1];
      SortKeepsDistinct(rows, init);
      assert last !in multiset(init);
      InsertKeepsDistinct(rows, last, SortByScore(rows, init));
    }
  }

  /** Sorting keeps the length and the names. */
  lemma SortPermutes(rows: map<string, Record>, xs: seq<string>)
    ensures |SortByScore(rows, xs)| == |xs|
    ensures forall x :: x in SortByScore(rows, xs) <==> x in xs
  {
    var sorted := SortByScore(rows, xs);
    assert |multiset(sorted)| == |multiset(xs)|;
    forall x
      ensures x in sorted <==> x in xs
    {
      assert x in sorted <==> x in multiset(sorted);
      assert x in xs <==> x in multiset(xs);
    }
  }

  /** In a list sorted by score, each of the first `n` names scores at
      least as much as any name after them. */
  lemma PrefixOutranks(rows: map<string, Record>, s: seq<string>, n: int)
    requires SortedByScore(rows, s) && 0 <= n <= |s|
    ensures forall x :: x in s && x !in s[..n] ==>
      forall i :: 0 <= i < n ==> ScoreOf(rows, s[i]) >= ScoreOf(rows, x)
  {
    forall x | x in s && x !in s[..n]
      ensures forall i :: 0 <= i < n ==> ScoreOf(rows, s[i]) >= ScoreOf(rows, x)
    {
      var k :| 0 <= k < |s| && s[k] == x;
    }
  }

  /** `get_top` returns the best `TopLimit` users (or all of them when
      there are fewer), each once, best score first. */
  lemma TopScoresShape(rows: map<string, Record>, order: seq<string>)
    requires Distinct(order) && forall u :: u in rows <==> u in order
    ensures var top := TopScores(rows, order);
      && |top| == (if |order| <= TopLimit then |order| else TopLimit)
      && Distinct(top)
      && (forall i :: 0 <= i < |top| ==> top[i] in rows)
      && SortedByScore(rows, top)
  {
    var sorted := SortByScore(rows, order);
    var top := TopScores(rows, order);
    SortIsSorted(rows, order);
    SortKeepsDistinct(rows, order);
    SortPermutes(rows, order);
    assert top == sorted[..|top|];
    forall i | 0 <= i < |top|
      ensures top[i] in rows
    {
      assert top[i] in sorted;
    }
  }

  /** No user left out of `get_top` scores higher than any user listed,
      and with at most `TopLimit` users nobody is left out. */
  lemma TopScoresAreTop(rows: map<string, Record>, order: seq<string>)
    requires Distinct(order) && forall u :: u in rows <==> u in order
    ensures var top := TopScores(rows, order);
      && (forall u :: u in rows && u !in top ==>
            forall i :: 0 <= i < |top| ==> ScoreOf(rows, top[i]) >= rows[u].score)
      && (|order| <= TopLimit ==> forall u :: u in rows ==> u in top)
  {
    var sorted := SortByScore(rows, order);
    var top := TopScores(rows, order);
    SortIsSorted(rows, order);
    SortPermutes(rows, order);
    assert top == sorted[..|top|];
    PrefixOutranks(rows, sorted, |top|);
  }

  /** `a` is listed somewhere before `b` in `s`. */
  predicate Before(s: seq<string>, a: string, b: string) {
    exists i, j :: 0 <= i < j < |s| && s[i] == a && s[j] == b
  }

  /** The first name of a sorted list scores at least as much as any other. */
  lemma SortedHeadOutranks(rows: map<string, Record>, s: seq<string>, x: string)
    requires SortedByScore(rows, s) && x in s
    ensures ScoreOf(rows, s[0]) >= ScoreOf(rows, x)
  {
    var m :| 0 <= m < |s| && s[m] == x;
    if m > 0 {
      assert ScoreOf(rows, s[0]) >= ScoreOf(rows, s[m]);
    }
  }

  /** One step of `InsertByScore`: the head stays in front when it
      scores at least as much as `u`, otherwise `u` goes first. */
  lemma InsertStep(rows: map<string, Record>, u: string, s: seq<string>)
    requires s != []
    ensures ScoreOf(rows, s[0]) >= ScoreOf(rows, u) ==>
      InsertByScore(rows, u, s) == [s[0]] + InsertByScore(rows, u, s[1..])
    ensures ScoreOf(rows, s[0]) < ScoreOf(rows, u) ==> InsertByScore(rows, u, s) == [u] + s
  {
  }

  /** Every listed name, and the new one, is in the result of an insertion. */
  lemma InsertHas(rows: map<string, Record>, u: string, s: seq<string>, x: string)
    requires x == u || x in s
    ensures x in InsertByScore(rows, u, s)
  {
    assert x in multiset(s) + multiset{u};
  }

  /** Putting a name in front keeps an order, and puts that name before
      every other. */
  lemma BeforeCons(h: string, t: seq<string>, a: string, b: string)
    requires Before(t, a, b) || (a == h && b in t)
    ensures Before([h] + t, a, b)
  {
    var r := [h] + t;
    if Before(t, a, b) {
      var i, j :| 0 <= i < j < |t| && t[i] == a && t[j] == b;
      assert r[i + 1] == a && r[j + 1] == b;
    } else {
      var k :| 0 <= k < |t| && t[k] == b;
      assert r[0] == a && r[k + 1] == b;
    }
  }

  /** Inserting a name keeps the order of the names already listed. */
  lemma {:induction false} InsertKeepsOrder(rows: map<string, Record>, u: string, s: seq<string>, a: string, b: string)
    requires Before(s, a, b)
    ensures Before(InsertByScore(rows, u, s), a, b)
    decreases |s|
  {
    var i, j :| 0 <= i < j < |s| && s[i] == a && s[j] == b;
    InsertStep(rows, u, s);
    var rest := s[1..];
    if ScoreOf(rows, s[0]) >= ScoreOf(rows, u) {
      var t := InsertByScore(rows, u, rest);
      if i == 0 {
        assert rest[j - 1] == b;
        InsertHas(rows, u, rest, b);
        BeforeCons(s[0], t, a, b);
      } else {
        assert rest[i - 1] == a && rest[j - 1] == b;
        InsertKeepsOrder(rows, u, rest, a, b);
        BeforeCons(s[0], t, a, b);
      }
    } else {
      BeforeCons(u, s, a, b);
    }
  }

  /** Inserting into a sorted list puts the new name after every name
      whose score is at least as high. */
  lemma {:induction false} InsertAfterEqual(rows: map<string, Record>, u: string, s: seq<string>, x: string)
    requires SortedByScore(rows, s) && x in s && ScoreOf(rows, x) >= ScoreOf(rows, u)
    ensures Before(InsertByScore(rows, u, s), x, u)
    decreases |s|
  {
    SortedHeadOutranks(rows, s, x);
    InsertStep(rows, u, s);
    var rest := s[1..];
    var t := InsertByScore(rows, u, rest);
    if s[0] == x {
      InsertHas(rows, u, rest, u);
      BeforeCons(s[0], t, x, u);
    } else {
      var m :| 0 <= m < |s| && s[m] == x;
      assert rest[m - 1] == x;
      SortedTail(rows, s);
      InsertAfterEqual(rows, u, rest, x);
      BeforeCons(s[0], t, x, u);
    }
  }

  /** The sort is stable: of two names with equal scores, the one inserted
      first is listed first. */
  lemma {:induction false} SortStable(rows: map<string, Record>, xs: seq<string>, i: int, j: int)
    requires 0 <= i < j < |xs| && ScoreOf(rows, xs[i]) == ScoreOf(rows, xs[j])
    ensures Before(SortByScore(rows, xs), xs[i], xs[j])
    decreases |xs|
  {
    var init, last := xs[..|xs| - 1], xs[|xs| - 1];
    var sortedInit := SortByScore(rows, init);
    assert xs == init + [last];
    assert SortByScore(rows, xs) == InsertByScore(rows, last, sortedInit);
    assert init[i] == xs[i];
    if j < |xs| - 1 {
      assert init[j] == xs[j];
      SortStable(rows, init, i, j);
      InsertKeepsOrder(rows, last, sortedInit, xs[i], xs[j]);
    } else {
      SortIsSorted(rows, init);
      assert xs[i] in multiset(init);
      assert xs[i] in multiset(sortedInit);
      InsertAfterEqual(rows, last, sortedInit, xs[i]);
    }
  }

  /** Ties on the leaderboard follow insertion order: when a user is
      listed, every user inserted earlier with the same score is listed
      too, and ahead of them. */
  lemma TopScoresStable(rows: map<string, Record>, order: seq<string>, i: int, j: int)
    requires Distinct(order) && 0 <= i < j < |order| && ScoreOf(rows, order[i]) == ScoreOf(rows, order[j])
    requires order[j] in TopScores(rows, order)
    ensures Before(TopScores(rows, order), order[i], order[j])
  {
    var sorted := SortByScore(rows, order);
    var top := TopScores(rows, order);
    SortStable(rows, order, i, j);
    SortKeepsDistinct(rows, order);
    var a, b :| 0 <= a < b < |sorted| && sorted[a] == order[i] && sorted[b] == order[j];
    if |sorted| > TopLimit {
      assert top == sorted[..TopLimit];
      var c :| 0 <= c < |top| && top[c] == order[j];
      assert sorted[c] == sorted[b];
      assert top[a] == order[i] && top[b] == order[j];
    } else {
      assert top == sorted;
    }
  }
}
