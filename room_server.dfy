/**
 * The realtime room handlers of the server (server/socket/gameHandlers.js)
 * over an in-memory model of the key-value store they use: a set of player
 * names per room, a move history and a redo list per room, the rooms'
 * stored grid sizes, and one global chat list, newest message first.
 *
 * Each handler is one atomic step. The store's list commands are modelled
 * exactly: RPUSH appends at the tail, DEL empties, RPOPLPUSH pops the tail of
 * one list and pushes it at the head of the other, LPUSH then LTRIM 0 19
 * keeps the 20 newest chat messages. What a handler broadcasts is its
 * result; the room's sockets, the user database and the clock are not part
 * of the model (the clock's time and id come in as parameters).
 */
module RoomServer {
  import opened Options
  import opened Board
  import opened GameState

  // ---------------------------------------------------------------------
  // The move lists
  // ---------------------------------------------------------------------

  /** The pair of lists (history, future) of one room. */
  datatype Log = Log(history: seq<Move>, future: seq<Move>)

  /**
   * RPOPLPUSH src dst: the last element of `src` moves to the head of
   * `dst`; nothing happens when `src` is empty. No move is lost or
   * duplicated.
   */
  function RPopLPush(src: seq<Move>, dst: seq<Move>): (r: (seq<Move>, seq<Move>))
    ensures |src| == 0 ==> r == (src, dst)
    ensures |src| > 0 ==> r.0 == src[..|src| - 1] && r.1 == [src[|src| - 1]] + dst
    ensures multiset(r.0) + multiset(r.1) == multiset(src) + multiset(dst)
    ensures |r.0| + |r.1| == |src| + |dst|
  {
    if |src| == 0 then (src, dst)
    else
      assert src == src[..|src| - 1] + [src[|src| - 1]];
      (src[..|src| - 1], [src[|src| - 1]] + dst)
  }

  /** `request_undo`: RPOPLPUSH history future. */
  function Undo(log: Log): Log
  {
    var r := RPopLPush(log.history, log.future);
    Log(r.0, r.1)
  }

  /** `request_redo`: RPOPLPUSH future history. */
  function Redo(log: Log): Log
  {
    var r := RPopLPush(log.future, log.history);
    Log(r.1, r.0)
  }

  /** All moves logged, played or undone. */
  function AllMoves(log: Log): multiset<Move>
  {
    multiset(log.history) + multiset(log.future)
  }

  /** Undo and redo keep every logged move exactly once, and so the total length. */
  lemma UndoRedoKeepMoves(log: Log)
    ensures AllMoves(Undo(log)) == AllMoves(log) && AllMoves(Redo(log)) == AllMoves(log)
    ensures |Undo(log).history| + |Undo(log).future| == |log.history| + |log.future|
    ensures |Redo(log).history| + |Redo(log).future| == |log.history| + |log.future|
  {
    var u := RPopLPush(log.history, log.future);
    var r := RPopLPush(log.future, log.history);
    assert AllMoves(Undo(log)) == multiset(u.0) + multiset(u.1);
    assert Redo(log) == Log(r.1, r.0);
    assert AllMoves(Redo(log)) == multiset(r.1) + multiset(r.0);
    assert multiset(r.1) + multiset(r.0) == multiset(r.0) + multiset(r.1);
    assert multiset(log.future) + multiset(log.history) == AllMoves(log);
  }

  function UndoTimes(log: Log, k: nat): Log
    decreases k
  {
    if k == 0 then log else UndoTimes(Undo(log), k - 1)
  }

  function RedoTimes(log: Log, k: nat): Log
    decreases k
  {
    if k == 0 then log else RedoTimes(Redo(log), k - 1)
  }

  /** Undoing the last |s| moves of `p + s` moves s, in order, to the head of the future. */
  lemma {:induction false} UndoTimesMoves(p: seq<Move>, s: seq<Move>, f: seq<Move>)
    ensures UndoTimes(Log(p + s, f), |s|) == Log(p, s + f)
    decreases |s|
  {
    if |s| > 0 {
      var last := |s| - 1;
      assert (p + s)[..|p + s| - 1] == p + s[..last];
      assert Undo(Log(p + s, f)) == Log(p + s[..last], [s[last]] + f);
      UndoTimesMoves(p, s[..last], [s[last]] + f);
      assert s[..last] + ([s[last]] + f) == s + f;
    }
  }

  /** Redoing |s| times from future s takes s's moves, last first, onto the head of the history. */
  lemma {:induction false} RedoTimesMoves(s: seq<Move>, h: seq<Move>)
    ensures RedoTimes(Log(h, s), |s|) == Log(s + h, [])
    decreases |s|
  {
    if |s| > 0 {
      var last := |s| - 1;
      assert Redo(Log(h, s)) == Log([s[last]] + h, s[..last]);
      RedoTimesMoves(s[..last], [s[last]] + h);
      assert s[..last] + ([s[last]] + h) == s + h;
    }
  }

  /**
   * Undoing the last |s| moves of the history `p + s` and then redoing
   * |s| times leaves the history `s + p`: the redone moves come back at the
   * head of the history, before the moves that were never undone.
   */
  lemma UndoRedoRotates(p: seq<Move>, s: seq<Move>)
    ensures RedoTimes(UndoTimes(Log(p + s, []), |s|), |s|) == Log(s + p, [])
  {
    UndoTimesMoves(p, s, []);
    assert s + [] == s;
    RedoTimesMoves(s, p);
  }

  /** Undoing the whole history and redoing it all restores it exactly. */
  lemma UndoAllRedoAllRestores(h: seq<Move>)
    ensures RedoTimes(UndoTimes(Log(h, []), |h|), |h|) == Log(h, [])
  {
    UndoRedoRotates([], h);
    assert [] + h == h && h + [] == h;
  }

  /**
   * One undo and one redo after two moves swap them: the history comes back
   * as [m2, m1], and the next undo takes back m1, the older move.
   */
  lemma UndoRedoReorders(m1: Move, m2: Move)
    requires m1 != m2
    ensures Redo(Undo(Log([m1, m2], []))) == Log([m2, m1], [])
    ensures Redo(Undo(Log([m1, m2], []))).history != [m1, m2]
  {
    assert Undo(Log([m1, m2], [])) == Log([m1], [m2]);
  }

  /** Redo as undo's inverse: take the head of the future back onto the tail of the history. */
  function RedoFixed(log: Log): (r: Log)
    ensures |log.future| == 0 ==> r == log
    ensures |log.future| > 0 ==> r.history == log.history + [log.future[0]] && r.future == log.future[1..]
  {
    if |log.future| == 0 then log
    else Log(log.history + [log.future[0]], log.future[1..])
  }

  /** The corrected redo takes back exactly the last undo, whatever both lists hold. */
  lemma RedoFixedUndoes(log: Log)
    requires |log.history| > 0
    ensures RedoFixed(Undo(log)) == log
  {
    var h := log.history;
    assert h[..|h| - 1] + [h[|h| - 1]] == h;
    assert ([h[|h| - 1]] + log.future)[1..] == log.future;
  }

  // ---------------------------------------------------------------------
  // Players and chat
  // ---------------------------------------------------------------------

  /** The room status `message` for a given player count. */
  function ReadyMessage(count: nat): (m: string)
    ensures m == "Ready!" <==> count >= 2
  {
    if count >= 2 then "Ready!" else "Waiting..."
  }

  /** The `room_status` payload; `gridSize` absent is None. */
  datatype RoomStatus = RoomStatus(count: nat, players: set<string>, gridSize: Option<int>, message: string)

  /** The `opponent_left_win` payload sent to the player who stayed. */
  datatype ForfeitNotice = ForfeitNotice(winner: string, message: string)

  /** A stored global chat message. */
  datatype ChatMessage = ChatMessage(username: string, text: string, time: string, id: int)

  /** A room chat message. */
  datatype RoomMessage = RoomMessage(username: string, text: string, time: string)

  /** A value JavaScript treats as true: present and not the empty string. */
  predicate Truthy(s: Option<string>)
  {
    s.Some? && s.value != ""
  }

  /** `String(x)` of a value that may be `undefined`. */
  function Str(s: Option<string>): string
  {
    if s.Some? then s.value else "undefined"
  }

  const ChatLimit: nat := 20

  function Min(a: int, b: int): int
  {
    if a <= b then a else b
  }

  /** LPUSH then LTRIM 0 19: the message goes first and at most 20 stay. */
  function PushChat(chat: seq<ChatMessage>, m: ChatMessage): (r: seq<ChatMessage>)
    ensures |r| == Min(|chat| + 1, ChatLimit)
    ensures r[0] == m && forall k :: 1 <= k < |r| ==> r[k] == chat[k - 1]
  {
    ([m] + chat)[..Min(|chat| + 1, ChatLimit)]
  }

  /** The chat list after the messages `msgs` arrive in order. */
  function PushAll(chat: seq<ChatMessage>, msgs: seq<ChatMessage>): seq<ChatMessage>
    decreases |msgs|
  {
    if |msgs| == 0 then chat
    else PushChat(PushAll(chat, msgs[..|msgs| - 1]), msgs[|msgs| - 1])
  }

  function Reverse<T>(s: seq<T>): (r: seq<T>)
    ensures |r| == |s| && forall i :: 0 <= i < |s| ==> r[i] == s[|s| - 1 - i]
  {
    if |s| == 0 then [] else Reverse(s[1..]) + [s[0]]
  }

  /** The last min(k, |s|) elements of s. */
  function Newest<T>(s: seq<T>, k: nat): (r: seq<T>)
    ensures |r| == Min(k, |s|)
  {
    s[|s| - Min(k, |s|)..]
  }

  lemma ReverseTake<T>(x: seq<T>, t: nat)
    requires t <= |x|
    ensures Reverse(x[..t]) == Reverse(x)[|x| - t..]
  {
    var y := x[..t];
    var a, rx := Reverse(y), Reverse(x);
    var b := rx[|x| - t..];
    assert |a| == t == |b|;
    forall i | 0 <= i < t
      ensures a[i] == b[i]
    {
      var j := t - 1 - i;
      assert a[i] == y[j] == x[j];
      assert b[i] == rx[|x| - t + i] == x[j];
    }
    assert a == b;
  }

  lemma NewestSnoc<T>(a: seq<T>, m: T, k: nat)
    requires k > 0
    ensures Newest(Newest(a, k) + [m], k) == Newest(a + [m], k)
  {
  }

  /**
   * However many messages arrive, the stored chat reversed (the order of
   * `get_global_chat_history`'s reply) is the newest 20 of everything
   * received, oldest first.
   */
  lemma {:induction false} ChatKeepsNewest(chat: seq<ChatMessage>, msgs: seq<ChatMessage>)
    requires |chat| <= ChatLimit
    ensures |PushAll(chat, msgs)| <= ChatLimit
    ensures Reverse(PushAll(chat, msgs)) == Newest(Reverse(chat) + msgs, ChatLimit)
    decreases |msgs|
  {
    if |msgs| == 0 {
      assert Reverse(chat) + msgs == Reverse(chat);
    } else {
      var front := msgs[..|msgs| - 1];
      var m := msgs[|msgs| - 1];
      var p := PushAll(chat, front);
      ChatKeepsNewest(chat, front);
      var x := [m] + p;
      var t := Min(|p| + 1, ChatLimit);
      ReverseTake(x, t);
      assert Reverse(x) == Reverse(p) + [m];
      NewestSnoc(Reverse(chat) + front, m, ChatLimit);
      assert Reverse(chat) + front + [m] == Reverse(chat) + msgs;
    }
  }

  /** `send_room_message`: nothing without a room and a text; the username as `String(username)`. */
  function SendRoomMessage(room: Option<string>, text: Option<string>, username: Option<string>,
                           time: string): (r: Option<RoomMessage>)
    ensures r.Some? <==> Truthy(room) && Truthy(text)
    ensures r.Some? ==> r.value.text == text.value && r.value.username == Str(username)
  {
    if !Truthy(room) || !Truthy(text) then None
    else Some(RoomMessage(Str(username), text.value, time))
  }

  /** A set of one player is that player. */
  lemma SoleMember(s: set<string>, w: string)
    requires |s| == 1 && w in s
    ensures s == {w}
  {
    assert |s - {w}| == 0;
  }

  // ---------------------------------------------------------------------
  // The store and the handlers
  // ---------------------------------------------------------------------

  /** `socket.data`: the room and the name a socket joined with. */
  class Connection {
    var room: Option<string>
    var username: Option<string>

    constructor ()
      ensures room.None? && username.None?
    {
      room, username := None, None;
    }
  }

  class RoomStore {
    var players: map<string, set<string>>
    var gridSizes: map<string, int>
    var logs: map<string, Log>
    var globalChat: seq<ChatMessage>

    /** Every logged move names one of the nine cells, and the chat holds at most 20 messages. */
    ghost predicate Valid()
      reads this
    {
      && (forall r :: r in logs ==> OnBoard(logs[r].history) && OnBoard(logs[r].future))
      && |globalChat| <= ChatLimit
    }

    constructor ()
      ensures Valid()
      ensures players == map[] && gridSizes == map[] && logs == map[] && globalChat == []
    {
      players, gridSizes, logs, globalChat := map[], map[], map[], [];
    }

    /** SMEMBERS: a missing key is the empty set. */
    function PlayersOf(room: string): set<string>
      reads this
    {
      if room in players then players[room] else {}
    }

    /** LRANGE of the two lists: missing keys are empty lists. */
    function LogOf(room: string): (log: Log)
      reads this
      requires Valid()
      ensures OnBoard(log.history) && OnBoard(log.future)
    {
      if room in logs then logs[room] else Log([], [])
    }

    /**
     * `join_room`: without a room nothing happens. Otherwise the socket
     * remembers the room and the name ("Guest" when none is given), the name
     * joins the room's player set, and the status reports the set and its
     * size, "Ready!" from two players on, and the stored grid size or else
     * the joiner's (3 when none is given); the room's state is synced.
     */
    method JoinRoom(conn: Connection, room: Option<string>, username: Option<string>, gridSize: Option<int>)
      returns (status: Option<RoomStatus>, sync: Option<SyncState>)
      requires Valid()
      modifies this, conn
      ensures Valid()
      ensures !Truthy(room) ==> status.None? && sync.None? && unchanged(this) && unchanged(conn)
      ensures Truthy(room) ==>
        var r := room.value;
        var name := if username.Some? then username.value else "Guest";
        && conn.room == room && conn.username == Some(name)
        && players == old(players)[r := old(PlayersOf(r)) + {name}]
        && logs == old(logs) && gridSizes == old(gridSizes) && globalChat == old(globalChat)
        && status == Some(RoomStatus(|PlayersOf(r)|, PlayersOf(r),
                                     Some(if r in gridSizes then gridSizes[r] else if gridSize.Some? then gridSize.value else 3),
                                     ReadyMessage(|PlayersOf(r)|)))
        && sync.Some? && SyncOf(LogOf(r).history, LogOf(r).future, sync.value)
    {
      if !Truthy(room) {
        return None, None;
      }
      var r := room.value;
      var name := if username.Some? then username.value else "Guest";
      conn.room := room;
      conn.username := Some(name);
      players := players[r := PlayersOf(r) + {name}];
      var members := players[r];
      var saved := if r in gridSizes then gridSizes[r] else if gridSize.Some? then gridSize.value else 3;
      status := Some(RoomStatus(|members|, members, Some(saved), ReadyMessage(|members|)));
      var log := LogOf(r);
      var s := SyncGameState(log.history, log.future);
      sync := Some(s);
    }

    /**
     * `disconnecting`: a socket that joined a room leaves its player set;
     * the one remaining player wins by forfeit exactly when the room's
     * history is not empty. The forfeit notice follows the database reward
     * and the leaderboard query, so it is sent only when both succeed;
     * `rewardSucceeded` is that outcome. The rest of the room always gets
     * the new status.
     */
    method Disconnecting(conn: Connection, rewardSucceeded: bool)
      returns (forfeit: Option<ForfeitNotice>, status: Option<RoomStatus>)
      requires Valid()
      modifies this
      ensures Valid()
      ensures !Truthy(conn.room) ==> forfeit.None? && status.None? && unchanged(this)
      ensures Truthy(conn.room) ==>
        var r := conn.room.value;
        var remaining := old(PlayersOf(r)) - {Str(conn.username)};
        && players == old(players)[r := remaining]
        && logs == old(logs) && gridSizes == old(gridSizes) && globalChat == old(globalChat)
        && (forfeit.Some? <==> |remaining| == 1 && |LogOf(r).history| > 0 && rewardSucceeded)
        && (forfeit.Some? ==>
              && remaining == {forfeit.value.winner}
              && forfeit.value.message == Str(conn.username) + " fled the battle! You win by forfeit.")
        && status == Some(RoomStatus(|remaining|, remaining, None, Str(conn.username) + " left."))
    {
      if !Truthy(conn.room) {
        return None, None;
      }
      var r := conn.room.value;
      var name := Str(conn.username);
      players := players[r := PlayersOf(r) - {name}];
      var remaining := players[r];
      var gameInProgress := |LogOf(r).history| > 0;
      forfeit := None;
      if |remaining| == 1 && gameInProgress {
        var winner :| winner in remaining;
        SoleMember(remaining, winner);
        if rewardSucceeded {
          forfeit := Some(ForfeitNotice(winner, name + " fled the battle! You win by forfeit."));
        }
      }
      status := Some(RoomStatus(|remaining|, remaining, None, name + " left."));
    }

    /**
     * `send_move`: X when the history has even length, O otherwise; the
     * move is appended to the history and the redo list is emptied. There
     * is no check that the cell is free or that the game is still open.
     */
    method SendMove(room: string, index: nat) returns (sync: SyncState)
      requires Valid() && index < 9
      modifies this
      ensures Valid()
      ensures var h := old(LogOf(room)).history;
        logs == old(logs)[room := Log(h + [Move(index, if |h| % 2 == 0 then X else O)], [])]
      ensures players == old(players) && gridSizes == old(gridSizes) && globalChat == old(globalChat)
      ensures SyncOf(LogOf(room).history, [], sync)
      ensures var h := old(LogOf(room)).history; var symbol := if |h| % 2 == 0 then X else O;
        && sync.board == Replay(h)[index := Some(symbol)]
        && sync.lastMove == Some(index) && sync.currentPlayer == Other(symbol)
    {
      var history := LogOf(room).history;
      var symbol := if |history| % 2 == 0 then X else O;
      logs := logs[room := Log(history + [Move(index, symbol)], [])];
      sync := SyncGameState(logs[room].history, logs[room].future);
      assert logs[room].history[..|history|] == history;
      SyncAfterMove(logs[room].history, sync);
    }

    /** `request_undo`: RPOPLPUSH from the history to the redo list. */
    method RequestUndo(room: string) returns (sync: SyncState)
      requires Valid()
      modifies this
      ensures Valid()
      ensures logs == old(logs)[room := Undo(old(LogOf(room)))]
      ensures players == old(players) && gridSizes == old(gridSizes) && globalChat == old(globalChat)
      ensures SyncOf(LogOf(room).history, LogOf(room).future, sync)
    {
      var log := Undo(LogOf(room));
      logs := logs[room := log];
      sync := SyncGameState(log.history, log.future);
    }

    /** `request_redo`: RPOPLPUSH from the redo list to the history. */
    method RequestRedo(room: string) returns (sync: SyncState)
      requires Valid()
      modifies this
      ensures Valid()
      ensures logs == old(logs)[room := Redo(old(LogOf(room)))]
      ensures players == old(players) && gridSizes == old(gridSizes) && globalChat == old(globalChat)
      ensures SyncOf(LogOf(room).history, LogOf(room).future, sync)
    {
      var log := Redo(LogOf(room));
      logs := logs[room := log];
      sync := SyncGameState(log.history, log.future);
    }

    /** `reset_game`: both lists deleted. */
    method ResetGame(room: string) returns (sync: SyncState)
      requires Valid()
      modifies this
      ensures Valid()
      ensures logs == old(logs)[room := Log([], [])]
      ensures players == old(players) && gridSizes == old(gridSizes) && globalChat == old(globalChat)
      ensures SyncOf([], [], sync)
      ensures sync.board == EmptyBoard(9) && sync.history == [] && sync.future == []
      ensures sync.currentPlayer == X && sync.winner == Ongoing && sync.winningCells.None? && sync.lastMove.None?
    {
      logs := logs[room := Log([], [])];
      sync := SyncGameState([], []);
      SyncOfEmpty(sync);
    }

    /**
     * `leave_room`: without a room or a remembered name nothing happens;
     * otherwise the name leaves the room's player set, and the status
     * counts the sockets still in the room (`socketsInRoom`, from the
     * transport). The socket keeps its remembered room.
     */
    method LeaveRoom(conn: Connection, room: Option<string>, socketsInRoom: nat) returns (status: Option<RoomStatus>)
      requires Valid()
      modifies this
      ensures Valid()
      ensures !Truthy(room) || !Truthy(conn.username) ==> status.None? && unchanged(this)
      ensures Truthy(room) && Truthy(conn.username) ==>
        var remaining := old(PlayersOf(room.value)) - {conn.username.value};
        && players == old(players)[room.value := remaining]
        && logs == old(logs) && gridSizes == old(gridSizes) && globalChat == old(globalChat)
        && status == Some(RoomStatus(socketsInRoom, remaining, None, "Opponent left."))
    {
      if !Truthy(room) || !Truthy(conn.username) {
        return None;
      }
      var r := room.value;
      players := players[r := PlayersOf(r) - {conn.username.value}];
      status := Some(RoomStatus(socketsInRoom, players[r], None, "Opponent left."));
    }

    /**
     * `global_chat_message`: without a text or a username nothing is stored;
     * otherwise the message goes to the head of the chat list, which keeps
     * its 20 newest entries.
     */
    method GlobalChatMessage(username: Option<string>, text: Option<string>, time: string, id: int)
      returns (sent: Option<ChatMessage>)
      requires Valid()
      modifies this
      ensures Valid()
      ensures !Truthy(text) || !Truthy(username) ==> sent.None? && unchanged(this)
      ensures Truthy(text) && Truthy(username) ==>
        sent == Some(ChatMessage(username.value, text.value, time, id))
        && globalChat == PushChat(old(globalChat), sent.value)
        && players == old(players) && logs == old(logs) && gridSizes == old(gridSizes)
    {
      if !Truthy(text) || !Truthy(username) {
        return None;
      }
      var m := ChatMessage(username.value, text.value, time, id);
      globalChat := PushChat(globalChat, m);
      sent := Some(m);
    }

    /** `get_global_chat_history`: the stored chat, oldest message first. */
    method GetGlobalChatHistory() returns (reply: seq<ChatMessage>)
      requires Valid()
      ensures |reply| == |globalChat| <= ChatLimit
      ensures forall i :: 0 <= i < |reply| ==> reply[i] == globalChat[|globalChat| - 1 - i]
    {
      reply := Reverse(globalChat);
    }
  }
}
