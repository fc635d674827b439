/** Moves, game states and the mutable position that the rules update in place. */
module States {
  import opened Animals

  datatype Terminal = Ongoing | Catch | Try | Draw | Illegal

  datatype Move = Move(piece: int, from: int, to: int) {
    predicate Valid() {
      0 <= piece < PIECE_COUNT && 0 <= from < SOURCE_COUNT && IsBoardSquare(to)
    }
  }

  const NO_MOVE := Move(255, FIRST_HAND_SLOT, 255)
  const EMPTY_SQUARE := -1
  const NO_WINNER := -1

  /** The fields the Zobrist key mixes. The key itself is this record: two different records are
      taken to have different keys, and nothing else about the 64-bit values is modelled here. */
  datatype Hash = Hash(pos: seq<int>, mask: seq<Mask>, owner: seq<Side>, origin: seq<Side>,
                       sideToMove: Side, turn: int, terminal: Terminal, winner: int)

  datatype State = State(board: seq<int>, pos: seq<int>, mask: seq<Mask>,
                         owner: seq<Side>, origin: seq<Side>, sideToMove: Side,
                         turn: nat, terminal: Terminal, winner: int, hash: Hash)

  function SideIndex(side: Side): int {
    if side.South? then 0 else 1
  }

  function ZobristHash(s: State): Hash {
    Hash(s.pos, s.mask, s.owner, s.origin, s.sideToMove,
         if s.turn < TURN_LIMIT then s.turn else TURN_LIMIT, s.terminal, s.winner)
  }

  function Rehashed(s: State): State {
    s.(hash := ZobristHash(s))
  }

  /** Array lengths and index ranges that every rule relies on. */
  ghost predicate Shaped(s: State)
  {
    && |s.board| == BOARD_SIZE
    && |s.pos| == |s.mask| == |s.owner| == |s.origin| == PIECE_COUNT
    && (forall square :: 0 <= square < BOARD_SIZE ==> -1 <= s.board[square] < PIECE_COUNT)
    && (forall p :: 0 <= p < PIECE_COUNT ==> 0 <= s.pos[p] < SOURCE_COUNT)
  }

  /** The board and the piece positions describe the same placement, with no slot shared. */
  ghost predicate Agree(s: State)
  {
    && Shaped(s)
    && (forall square :: 0 <= square < BOARD_SIZE && s.board[square] >= 0 ==> s.pos[s.board[square]] == square)
    && (forall p :: 0 <= p < PIECE_COUNT && IsBoardSquare(s.pos[p]) ==> s.board[s.pos[p]] == p)
    && (forall p, q :: 0 <= p < q < PIECE_COUNT ==> s.pos[p] != s.pos[q])
  }

  /** The mutable state: one field for each field of the record, copied and restored as a whole. */
  class Position {
    var board: seq<int>
    var pos: seq<int>
    var mask: seq<Mask>
    var owner: seq<Side>
    var origin: seq<Side>
    var sideToMove: Side
    var turn: nat
    var terminal: Terminal
    var winner: int
    var hash: Hash

    function Snapshot(): State
      reads this
    {
      State(board, pos, mask, owner, origin, sideToMove, turn, terminal, winner, hash)
    }

    constructor (s: State)
      ensures Snapshot() == s
    {
      board, pos, mask, owner, origin := s.board, s.pos, s.mask, s.owner, s.origin;
      sideToMove, turn, terminal, winner, hash := s.sideToMove, s.turn, s.terminal, s.winner, s.hash;
    }

    method Restore(s: State)
      modifies this
      ensures Snapshot() == s
    {
      board, pos, mask, owner, origin := s.board, s.pos, s.mask, s.owner, s.origin;
      sideToMove, turn, terminal, winner, hash := s.sideToMove, s.turn, s.terminal, s.winner, s.hash;
    }

    method RecomputeHash()
      modifies this`hash
      ensures Snapshot() == Rehashed(old(Snapshot()))
    {
      hash := ZobristHash(Snapshot());
    }
  }

  /** First half of the consistency scan: every occupied square names a piece that names it back. */
  method ScanSquares(s: State) returns (ok: bool, seen: seq<bool>)
    requires |s.board| == BOARD_SIZE && |s.pos| == PIECE_COUNT
    ensures |seen| == PIECE_COUNT
    ensures ok <==> forall i :: 0 <= i < BOARD_SIZE ==>
                      -1 <= s.board[i] < PIECE_COUNT && (s.board[i] >= 0 ==> s.pos[s.board[i]] == i)
    ensures ok ==> forall p :: 0 <= p < PIECE_COUNT ==>
                     (seen[p] <==> IsBoardSquare(s.pos[p]) && s.board[s.pos[p]] == p)
  {
    seen := seq(PIECE_COUNT, _ => false);
    for square := 0 to BOARD_SIZE
      invariant |seen| == PIECE_COUNT
      invariant forall i :: 0 <= i < square ==>
                  -1 <= s.board[i] < PIECE_COUNT && (s.board[i] >= 0 ==> s.pos[s.board[i]] == i)
      invariant forall p :: 0 <= p < PIECE_COUNT ==>
                  (seen[p] <==> 0 <= s.pos[p] < square && s.board[s.pos[p]] == p)
    {
      var piece := s.board[square];
      if piece < -1 || piece >= PIECE_COUNT {
        return false, seen;
      }
      if piece >= 0 {
        if seen[piece] || s.pos[piece] != square {
          return false, seen;
        }
        seen := seen[piece := true];
      }
    }
    return true, seen;
  }

  /** Second half: pieces not seen on the board occupy distinct hand slots. */
  method ScanPieces(s: State, seen: seq<bool>) returns (ok: bool)
    requires |s.board| == BOARD_SIZE && |s.pos| == |seen| == PIECE_COUNT
    requires forall p :: 0 <= p < PIECE_COUNT ==> 0 <= s.pos[p]
    requires forall p :: 0 <= p < PIECE_COUNT ==>
               (seen[p] <==> IsBoardSquare(s.pos[p]) && s.board[s.pos[p]] == p)
    ensures ok <==> && (forall p :: 0 <= p < PIECE_COUNT ==> s.pos[p] < SOURCE_COUNT)
                    && (forall p :: 0 <= p < PIECE_COUNT && IsBoardSquare(s.pos[p]) ==> s.board[s.pos[p]] == p)
                    && (forall p, q :: 0 <= p < q < PIECE_COUNT ==> s.pos[p] != s.pos[q])
  {
    var handSeen := seq(PIECE_COUNT, _ => false);
    ghost var holder := seq(PIECE_COUNT, _ => -1);
    for piece := 0 to PIECE_COUNT
      invariant |handSeen| == |holder| == PIECE_COUNT
      invariant forall p :: 0 <= p < piece ==> s.pos[p] < SOURCE_COUNT
      invariant forall p :: 0 <= p < piece && IsBoardSquare(s.pos[p]) ==> s.board[s.pos[p]] == p
      invariant forall p :: 0 <= p < piece && IsHandPosition(s.pos[p]) ==> handSeen[s.pos[p] - FIRST_HAND_SLOT]
      invariant forall i {:trigger holder[i]} :: 0 <= i < PIECE_COUNT && handSeen[i] ==>
                  0 <= holder[i] < piece && s.pos[holder[i]] == FIRST_HAND_SLOT + i
      invariant forall p, q :: 0 <= p < q < piece ==> s.pos[p] != s.pos[q]
    {
      if s.pos[piece] < BOARD_SIZE {
        if !seen[piece] || s.board[s.pos[piece]] != piece {
          return false;
        }
      } else {
        if !IsHandPosition(s.pos[piece]) || seen[piece] {
          return false;
        }
        var handIndex := s.pos[piece] - FIRST_HAND_SLOT;
        if handSeen[handIndex] {
          assert s.pos[holder[handIndex]] == s.pos[piece];
          return false;
        }
        handSeen := handSeen[handIndex := true];
        holder := holder[handIndex := piece];
      }
    }
    return true;
  }

  /** The validating scan accepts exactly the states whose two placements agree. */
  method BoardConsistent(s: State) returns (ok: bool)
    requires |s.board| == BOARD_SIZE
    requires |s.pos| == |s.mask| == |s.owner| == |s.origin| == PIECE_COUNT
    requires forall p :: 0 <= p < PIECE_COUNT ==> 0 <= s.pos[p]
    ensures ok <==> Agree(s)
  {
    var seen;
    ok, seen := ScanSquares(s);
    if ok {
      ok := ScanPieces(s, seen);
    }
  }
}
