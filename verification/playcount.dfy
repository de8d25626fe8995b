// updatePlayCount in script.js: the persisted play counter, capped at one
// million. The stored value is a parameter; None stands for a missing or
// empty entry.
module PlayCount {
  import opened Options

  /** The counter stops growing here. */
  const PLAY_COUNT_CAP: int := 1000000

  /** `savedCount ? parseInt(savedCount, 10) : 0`, then one more unless the
      cap is reached. */
  function NextPlayCount(saved: Option<int>): (n: int)
    ensures saved.None? ==> n == 1
    ensures saved.Some? ==> saved.value <= n <= saved.value + 1
    ensures saved.Some? ==> (n == saved.value <==> saved.value >= PLAY_COUNT_CAP)
    ensures saved.Some? && saved.value <= PLAY_COUNT_CAP ==> n <= PLAY_COUNT_CAP
  {
    var count := if saved.Some? then saved.value else 0;
    if count < PLAY_COUNT_CAP then count + 1 else count
  }

  /** The counter after k more plays, each reading back what the previous
      one stored. */
  function Plays(saved: Option<int>, k: nat): int
    decreases k
  {
    if k == 0 then (if saved.Some? then saved.value else 0)
    else Plays(Some(NextPlayCount(saved)), k - 1)
  }

  function Min(a: int, b: int): int {
    if a <= b then a else b
  }

  /** Starting from a stored count s between 0 and the cap, k plays leave
      min(s + k, cap); a count already beyond the cap never moves. */
  lemma {:induction false} PlaysSaturate(s: int, k: nat)
    ensures 0 <= s <= PLAY_COUNT_CAP ==> Plays(Some(s), k) == Min(s + k, PLAY_COUNT_CAP)
    ensures s > PLAY_COUNT_CAP ==> Plays(Some(s), k) == s
    decreases k
  {
    if k > 0 {
      PlaysSaturate(NextPlayCount(Some(s)), k - 1);
    }
  }

  /** A first visit, with nothing stored, counts as play 1. */
  lemma FirstPlay(k: nat)
    ensures Plays(None, k + 1) == Min(k + 1, PLAY_COUNT_CAP)
  {
    PlaysSaturate(1, k);
  }
}
