/** The blackjack game manager: the per-user table of active games, the per-user statistics
    record updated when a game ends, and the leaderboard rank. The statistics collection is a
    map from user id to that user's blackjack record. */
module GameManagement {
  import opened Common
  import opened Blackjack

  /** One user's blackjack statistics record. */
  datatype Stats = Stats(
    gamesPlayed: nat,
    gamesWon: nat,
    gamesTied: nat,
    totalScore: int,
    winRate: real,
    currentStreak: nat,
    bestStreak: nat,
    lastPlayed: Option<int>)

  /** A record created on a user's first finished game: every counter zero. */
  function NewStats(): (s: Stats)
    ensures StatsOk(s) && s.gamesPlayed == 0 && s.totalScore == 0
  {
    Stats(0, 0, 0, 0, 0.0, 0, 0, None)
  }

  /** The record of `user`, or a new one when there is none. */
  function StatsOf(table: map<int, Stats>, user: int): Stats {
    if user in table then table[user] else NewStats()
  }

  /** A result that counts as a win: the player's win, blackjack, or the dealer's bust. */
  predicate IsWin(r: Option<GameResult>) {
    r == Some(PlayerWin) || r == Some(PlayerBlackjack) || r == Some(DealerBust)
  }

  /** Points for a result: 150 for a blackjack, 100 for another win, 50 for a tie, else 0. */
  function ScoreDelta(r: Option<GameResult>): (d: nat)
    ensures d == 150 <==> r == Some(PlayerBlackjack)
    ensures d == 100 <==> r == Some(PlayerWin) || r == Some(DealerBust)
    ensures d == 50 <==> r == Some(Tie)
    ensures d == 0 <==> !IsWin(r) && r != Some(Tie)
  {
    if r == Some(PlayerBlackjack) then 150
    else if IsWin(r) then 100
    else if r == Some(Tie) then 50
    else 0
  }

  /** `record_game_result`'s update of one record for the game's result at time `now`. */
  function Recorded(s: Stats, r: Option<GameResult>, now: int): (t: Stats)
    ensures t.gamesPlayed == s.gamesPlayed + 1
    ensures t.totalScore == s.totalScore + ScoreDelta(r)
    ensures t.gamesWon == s.gamesWon + (if IsWin(r) then 1 else 0)
    ensures t.gamesTied == s.gamesTied + (if r == Some(Tie) then 1 else 0)
    ensures t.winRate == t.gamesWon as real / t.gamesPlayed as real
    ensures IsWin(r) ==> t.currentStreak == s.currentStreak + 1 && t.bestStreak == Max(s.bestStreak, t.currentStreak)
    ensures !IsWin(r) ==> t.currentStreak == 0 && t.bestStreak == s.bestStreak
    ensures t.lastPlayed == Some(now)
  {
    var played := s.gamesPlayed + 1;
    var won := s.gamesWon + (if IsWin(r) then 1 else 0);
    var tied := s.gamesTied + (if r == Some(Tie) then 1 else 0);
    var streak := if IsWin(r) then s.currentStreak + 1 else 0;
    var best := if IsWin(r) then Max(s.bestStreak, streak) else s.bestStreak;
    Stats(played, won, tied, s.totalScore + ScoreDelta(r), won as real / played as real, streak, best, Some(now))
  }

  /** What every record keeps: wins and ties are among the games played (so the displayed
      loss count is never negative), the streak is at most the best streak and the wins, the
      score lies between 0 and 150 points a game, and the win rate is wins over games. */
  predicate StatsOk(s: Stats) {
    && s.gamesWon + s.gamesTied <= s.gamesPlayed
    && s.currentStreak <= s.bestStreak
    && s.currentStreak <= s.gamesWon
    && 0 <= s.totalScore <= 150 * s.gamesPlayed
    && s.winRate == (if s.gamesPlayed == 0 then 0.0 else s.gamesWon as real / s.gamesPlayed as real)
  }

  lemma RecordedKeepsStatsOk(s: Stats, r: Option<GameResult>, now: int)
    requires StatsOk(s)
    ensures StatsOk(Recorded(s, r, now))
  {
  }

  /** A consistent record has a win rate between 0 and 1. */
  lemma WinRateBounds(s: Stats)
    requires StatsOk(s)
    ensures 0.0 <= s.winRate <= 1.0
  {
    if s.gamesPlayed > 0 {
      DivideAtMost(s.gamesWon as real, s.gamesPlayed as real);
    }
  }

  /** `_calculate_user_rank`: one more than the number of players with at least one game and a
      strictly higher total score; 999 when the query fails. */
  function Rank(table: map<int, Stats>, score: int, queryFails: bool): (rank: nat)
    ensures rank >= 1
    ensures !queryFails ==> rank == 1 + |HigherScorers(table, score)|
  {
    if queryFails then 999 else 1 + |HigherScorers(table, score)|
  }

  function HigherScorers(table: map<int, Stats>, score: int): (users: set<int>)
    ensures users <= table.Keys
    ensures forall u :: u in users <==> u in table && table[u].gamesPlayed > 0 && table[u].totalScore > score
  {
    set u | u in table && table[u].gamesPlayed > 0 && table[u].totalScore > score
  }

  /** A higher score never ranks worse. */
  lemma RankMonotone(table: map<int, Stats>, low: int, high: int)
    requires low <= high
    ensures Rank(table, high, false) <= Rank(table, low, false)
  {
    assert HigherScorers(table, high) <= HigherScorers(table, low);
    SubsetCard(HigherScorers(table, high), HigherScorers(table, low));
  }

  /** The rank lies between 1 and one more than the number of players, and it is 1 exactly when
      nobody who has played scores higher. */
  lemma RankBounds(table: map<int, Stats>, score: int)
    ensures 1 <= Rank(table, score, false) <= |table.Keys| + 1
    ensures Rank(table, score, false) == 1 <==> forall u :: u in table && table[u].gamesPlayed > 0 ==> table[u].totalScore <= score
  {
    var h := HigherScorers(table, score);
    SubsetCard(h, table.Keys);
    if forall u :: u in table && table[u].gamesPlayed > 0 ==> table[u].totalScore <= score {
      assert forall u :: u !in h;
      assert h == {};
    } else {
      var u :| u in table && table[u].gamesPlayed > 0 && table[u].totalScore > score;
      assert u in h;
    }
  }

  lemma {:induction false} SubsetCard<T>(a: set<T>, b: set<T>)
    requires a <= b
    ensures |a| <= |b|
    decreases b
  {
    if a != {} {
      var x :| x in a;
      SubsetCard(a - {x}, b - {x});
    }
  }

  /** How `record_game_result` ends: with its success log line, or in its error branch. */
  datatype RecordOutcome = ResultLogged | ErrorLogged

  class GameManager {
    /** The running game of each user. */
    var activeGames: map<int, BlackjackGame>
    /** The blackjack statistics collection, by user id. */
    var stats: map<int, Stats>

    /** Each game is filed under its own player, and every record is consistent. */
    ghost predicate Valid()
      reads this
    {
      && (forall u :: u in activeGames ==> activeGames[u].playerId == u)
      && (forall u :: u in stats ==> StatsOk(stats[u]))
    }

    constructor (stats: map<int, Stats>)
      requires forall u :: u in stats ==> StatsOk(stats[u])
      ensures Valid() && activeGames == map[] && this.stats == stats
    {
      activeGames := map[];
      this.stats := stats;
    }

    /** The shared part of recording: the player's record is updated and saved, and the game is
        removed from the active table whatever happens afterwards. */
    method ApplyResult(game: BlackjackGame, now: int)
      requires Valid()
      modifies this
      ensures Valid()
      ensures stats == old(stats)[game.playerId := Recorded(StatsOf(old(stats), game.playerId), game.result, now)]
      ensures activeGames == old(activeGames) - {game.playerId}
    {
      var s := StatsOf(stats, game.playerId);
      RecordedKeepsStatsOk(s, game.result, now);
      stats := stats[game.playerId := Recorded(s, game.result, now)];
      CleanupGame(game.playerId);
    }

    /** `record_game_result` as written: `save()` writes the record synchronously and returns
        it, and awaiting that return value raises, so the success log line is never reached and
        the error branch always runs. The record has been saved all the same. */
    method RecordGameResultAsWritten(game: BlackjackGame, now: int) returns (outcome: RecordOutcome)
      requires Valid()
      modifies this
      ensures Valid()
      ensures stats == old(stats)[game.playerId := Recorded(StatsOf(old(stats), game.playerId), game.result, now)]
      ensures activeGames == old(activeGames) - {game.playerId}
      ensures outcome == ErrorLogged
    {
      ApplyResult(game, now);
      outcome := ErrorLogged;
    }

    /** `record_game_result` with `save()` called and not awaited: the record is updated, the
        result logged and the game removed. */
    method RecordGameResult(game: BlackjackGame, now: int) returns (outcome: RecordOutcome)
      requires Valid()
      modifies this
      ensures Valid()
      ensures stats == old(stats)[game.playerId := Recorded(StatsOf(old(stats), game.playerId), game.result, now)]
      ensures activeGames == old(activeGames) - {game.playerId}
      ensures outcome == ResultLogged
    {
      ApplyResult(game, now);
      outcome := ResultLogged;
    }

    /** `start_game` for `user` with a one-deck shoe shuffled into `order`: refused, changing
        nothing, when the user already has a game. Otherwise the new game is filed under the user,
        and a game over at the deal is recorded at once, which removes it again. */
    method StartGame(user: int, order: seq<Card>, now: int) returns (game: BlackjackGame?)
      requires Valid() && multiset(order) == multiset(FullDeck(1))
      modifies this
      ensures Valid()
      ensures user in old(activeGames) ==> game == null && activeGames == old(activeGames) && stats == old(stats)
      ensures user !in old(activeGames) ==>
        && game != null && fresh(game) && game.playerId == user && game.Valid()
        && (game.state == WaitingForPlayer ==> activeGames == old(activeGames)[user := game] && stats == old(stats))
        && (game.state == GameOver ==>
              && activeGames == old(activeGames)
              && stats == old(stats)[user := Recorded(StatsOf(old(stats), user), game.result, now)])
    {
      if user in activeGames {
        return null;
      }
      game := new BlackjackGame(user, 1, order);
      FileNewGame(game, now);
    }

    /** Files a new game under its player, recording it at once when it is already over. */
    method FileNewGame(game: BlackjackGame, now: int)
      requires Valid() && game.playerId !in activeGames
      modifies this
      ensures Valid()
      ensures game.state != GameOver ==> activeGames == old(activeGames)[game.playerId := game] && stats == old(stats)
      ensures game.state == GameOver ==>
        && activeGames == old(activeGames)
        && stats == old(stats)[game.playerId := Recorded(StatsOf(old(stats), game.playerId), game.result, now)]
    {
      activeGames := activeGames[game.playerId := game];
      if game.state == GameOver {
        var _ := RecordGameResult(game, now);
      }
    }

    /** `cleanup_game`: the user's game, if any, is dropped. */
    method CleanupGame(user: int)
      requires Valid()
      modifies this`activeGames
      ensures Valid()
      ensures activeGames == old(activeGames) - {user}
      ensures user !in activeGames
    {
      if user in activeGames {
        activeGames := activeGames - {user};
      }
    }

    /** `reset_user_game`: the user's game is dropped; the result says whether there was one. */
    method ResetUserGame(user: int) returns (hadGame: bool)
      requires Valid()
      modifies this`activeGames
      ensures Valid()
      ensures hadGame <==> user in old(activeGames)
      ensures activeGames == old(activeGames) - {user}
    {
      hadGame := user in activeGames;
      if hadGame {
        CleanupGame(user);
      }
    }

    /** `close`: every active game is dropped. */
    method Close()
      requires Valid()
      modifies this`activeGames
      ensures Valid() && activeGames == map[]
    {
      activeGames := map[];
    }
  }
}
