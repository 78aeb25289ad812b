/** The flat board array: row r occupies the cells r*len .. r*len+len-1, its cards first and
    then -1. */
module Board {

  /** The first cell of row r. Defined by addition, which keeps products out of the proofs. */
  function Start(r: nat, len: nat): nat {
    if r == 0 then 0 else Start(r - 1, len) + len
  }

  lemma {:induction false} StartIsProduct(r: nat, len: nat)
    ensures Start(r, len) == r * len
  {
    if r > 0 { StartIsProduct(r - 1, len); }
  }

  lemma {:induction false} RowsApart(r: nat, q: nat, len: nat)
    requires r < q
    ensures Start(r, len) + len <= Start(q, len)
  {
    if r + 1 < q { RowsApart(r, q - 1, len); }
  }

  ghost predicate RowAt(board: seq<int>, start: nat, row: seq<int>, len: nat) {
    && |row| <= len && start + len <= |board|
    && forall k | start <= k < start + len ::
         board[k] == if k - start < |row| then row[k - start] else -1
  }

  ghost predicate Lays(board: seq<int>, rows: seq<seq<int>>, len: nat) {
    && |board| == Start(|rows|, len)
    && forall r | 0 <= r < |rows| :: RowAt(board, Start(r, len), rows[r], len)
  }

  /** Cards are identified by 0 .. n-1, so an occupied cell is never -1. */
  ghost predicate InDeck(s: seq<int>, n: nat) {
    forall i | 0 <= i < |s| :: 0 <= s[i] < n
  }

  lemma {:induction false} LaysEmpty(board: seq<int>, rows: seq<seq<int>>, len: nat)
    requires |board| == Start(|rows|, len) && forall k | 0 <= k < |board| :: board[k] == -1
    requires forall r | 0 <= r < |rows| :: rows[r] == []
    ensures Lays(board, rows, len)
  {
    forall r | 0 <= r < |rows| ensures RowAt(board, Start(r, len), rows[r], len) {
      RowsApart(r, |rows|, len);
    }
  }

  /** Only the cells of row r changed. */
  lemma {:induction false} LaysUpdate(board: seq<int>, board': seq<int>, rows: seq<seq<int>>, len: nat, r: nat,
                                      row: seq<int>)
    requires Lays(board, rows, len) && r < |rows| && |board'| == |board|
    requires RowAt(board', Start(r, len), row, len)
    requires forall k | 0 <= k < |board| && !(Start(r, len) <= k < Start(r, len) + len) :: board'[k] == board[k]
    ensures Lays(board', rows[r := row], len)
  {
    forall q | 0 <= q < |rows| && q != r ensures RowAt(board', Start(q, len), rows[q], len) {
      assert RowAt(board, Start(q, len), rows[q], len);
      if q < r { RowsApart(q, r, len); } else { RowsApart(r, q, len); }
    }
  }

  lemma {:induction false} LaysAppend(board: seq<int>, rows: seq<seq<int>>, len: nat, r: nat, card: int)
    requires Lays(board, rows, len) && r < |rows| && |rows[r]| < len
    ensures Start(r, len) + |rows[r]| < |board|
    ensures Lays(board[Start(r, len) + |rows[r]| := card], rows[r := rows[r] + [card]], len)
  {
    assert RowAt(board, Start(r, len), rows[r], len);
    LaysUpdate(board, board[Start(r, len) + |rows[r]| := card], rows, len, r, rows[r] + [card]);
  }

  /** Row r cleared up to its last card, and one card put in its first cell. */
  lemma {:induction false} LaysTaken(board: seq<int>, board': seq<int>, rows: seq<seq<int>>, len: nat, r: nat,
                                     card: int)
    requires Lays(board, rows, len) && r < |rows| && len > 0 && |board'| == |board|
    requires Start(r, len) < |board| && board'[Start(r, len)] == card
    requires forall k | 0 <= k < |board| && k != Start(r, len) ::
               board'[k] == if Start(r, len) <= k < Start(r, len) + |rows[r]| then -1 else board[k]
    ensures Lays(board', rows[r := [card]], len)
  {
    assert RowAt(board, Start(r, len), rows[r], len);
    LaysUpdate(board, board', rows, len, r, [card]);
  }
}
