/** The value table of the Q-learning agent as a plain value: a sparse map from
    state keys to rows of action values, with the lazy zero rows, the greedy
    argmax and the one-step temporal-difference update stated over it. */
module QTable {

  /** A state key: the observation tuple, one integer per component. */
  type Key = seq<int>
  /** One value estimate per action. */
  type Row = seq<real>
  /** The sparse table: only states that were touched have a row. */
  type Table = map<Key, Row>

  /** get_state_key: the key holds the same elements as the state, in the same order,
      so equal states give equal keys and distinct states distinct keys. */
  function StateKey(state: seq<int>): (k: Key)
    ensures |k| == |state|
    ensures forall i :: 0 <= i < |state| ==> k[i] == state[i]
  {
    state
  }

  /** The row materialised for a state seen for the first time. */
  function Zeros(n: nat): (r: Row)
    ensures |r| == n
    ensures forall i :: 0 <= i < n ==> r[i] == 0.0
  {
    seq(n, _ => 0.0)
  }

  /** Every materialised row has one entry per action. */
  ghost predicate WellFormed(t: Table, n: nat)
  {
    forall k :: k in t ==> |t[k]| == n
  }

  /** The estimates the table stands for: an absent state reads as all zeros. */
  function Lookup(t: Table, n: nat, k: Key): (r: Row)
    ensures WellFormed(t, n) ==> |r| == n
    ensures k in t ==> r == t[k]
    ensures k !in t ==> r == Zeros(n)
  {
    if k in t then t[k] else Zeros(n)
  }

  /** np.max of a non-empty row. */
  function RowMax(row: Row): (m: real)
    requires |row| > 0
    ensures forall i :: 0 <= i < |row| ==> row[i] <= m
    ensures exists i :: 0 <= i < |row| && row[i] == m
  {
    var last := |row| - 1;
    if last == 0 then row[0]
    else
      var front := RowMax(row[..last]);
      assert forall i :: 0 <= i < last ==> row[i] == row[..last][i];
      if front >= row[last] then front else row[last]
  }

  /** np.argmax of a non-empty row: the first index holding the maximum. */
  function ArgMax(row: Row): (i: nat)
    requires |row| > 0
    ensures i < |row|
    ensures row[i] == RowMax(row)
    ensures forall j :: 0 <= j < i ==> row[j] < row[i]
  {
    var last := |row| - 1;
    if last == 0 then 0
    else
      var j := ArgMax(row[..last]);
      assert forall i :: 0 <= i < last ==> row[i] == row[..last][i];
      if row[last] > row[j] then last else j
  }

  /** The explicit get-or-insert: an absent state gets a zero row, nothing else changes. */
  function GetOrInsert(t: Table, n: nat, k: Key): (t': Table)
    requires WellFormed(t, n)
    ensures WellFormed(t', n)
    ensures t'.Keys == t.Keys + {k}
    ensures forall k' :: k' in t ==> t'[k'] == t[k']
    ensures t'[k] == Lookup(t, n, k)
  {
    if k in t then t else t[k := Zeros(n)]
  }

  /** The Q-learning blend of the old estimate with the bootstrapped target
      reward + gamma * nextMax: learning rate 0 keeps the estimate, 1 replaces it by
      the target. */
  function Blend(oldValue: real, reward: real, nextMax: real, alpha: real, gamma: real): (b: real)
    ensures alpha == 0.0 ==> b == oldValue
    ensures alpha == 1.0 ==> b == reward + gamma * nextMax
  {
    (1.0 - alpha) * oldValue + alpha * (reward + gamma * nextMax)
  }

  /** learn(s, a, r, s'): materialise both rows, read the old cell and the next-state
      maximum, then overwrite cell [s][a] and nothing else. */
  function Learned(t: Table, n: nat, alpha: real, gamma: real, s: Key, a: nat, r: real, s': Key): (t': Table)
    requires WellFormed(t, n)
    requires a < n
    ensures WellFormed(t', n)
    ensures t'.Keys == t.Keys + {s, s'}
    ensures t'[s][a] == Blend(Lookup(t, n, s)[a], r, RowMax(Lookup(t, n, s')), alpha, gamma)
    ensures forall j :: 0 <= j < n && j != a ==> t'[s][j] == Lookup(t, n, s)[j]
    ensures forall k :: k in t' && k != s ==> t'[k] == Lookup(t, n, k)
  {
    var t0 := GetOrInsert(t, n, s);
    var t1 := GetOrInsert(t0, n, s');
    MaterialiseInvisible(t, n, s, s');
    assert forall k :: k in t1 ==> t1[k] == Lookup(t, n, k);
    var oldValue := t1[s][a];
    var nextMax := RowMax(t1[s']);
    t1[s := t1[s][a := Blend(oldValue, r, nextMax, alpha, gamma)]]
  }

  /** The zero row choose_action may have materialised for s makes no difference to
      learn(s, ...), which materialises it anyway. */
  lemma LearnedAbsorbsInsert(t: Table, n: nat, alpha: real, gamma: real, s: Key, a: nat, r: real, s': Key)
    requires WellFormed(t, n)
    requires a < n
    ensures Learned(GetOrInsert(t, n, s), n, alpha, gamma, s, a, r, s') == Learned(t, n, alpha, gamma, s, a, r, s')
  {
    assert GetOrInsert(GetOrInsert(t, n, s), n, s) == GetOrInsert(t, n, s);
  }

  /** Materialising a zero row does not change what the table stands for. */
  lemma MaterialiseInvisible(t: Table, n: nat, k: Key, k': Key)
    requires WellFormed(t, n)
    ensures Lookup(GetOrInsert(t, n, k), n, k') == Lookup(t, n, k')
  {
  }

  /** A state never seen before is exploited as action 0: on a zero row the
      lowest-index tie-break picks the first action. */
  lemma ArgMaxOfZeros(n: nat)
    requires n > 0
    ensures ArgMax(Zeros(n)) == 0
  {
    var z := Zeros(n);
    var i := ArgMax(z);
    assert z[0] == z[i];
  }

  /** The argmax is determined by the row: any index that holds the maximum and has
      no maximum before it is the argmax. */
  lemma ArgMaxUnique(row: Row, i: nat)
    requires |row| > 0 && i < |row|
    requires forall j :: 0 <= j < |row| ==> row[j] <= row[i]
    requires forall j :: 0 <= j < i ==> row[j] < row[i]
    ensures ArgMax(row) == i
  {
  }

  /** With a learning rate in [0, 1] the new estimate lies between the old one and
      the target reward + gamma * nextMax, and moves alpha of the way to the target. */
  lemma BlendBetween(oldValue: real, reward: real, nextMax: real, alpha: real, gamma: real)
    requires 0.0 <= alpha <= 1.0
    ensures var target, b := reward + gamma * nextMax, Blend(oldValue, reward, nextMax, alpha, gamma);
      && b - oldValue == alpha * (target - oldValue)
      && (oldValue <= target ==> oldValue <= b <= target)
      && (target <= oldValue ==> target <= b <= oldValue)
  {
    var target := reward + gamma * nextMax;
    var d := target - oldValue;
    assert Blend(oldValue, reward, nextMax, alpha, gamma) == oldValue + alpha * d;
    if d >= 0.0 {
      assert 0.0 <= alpha * d <= 1.0 * d;
    } else {
      assert 1.0 * d <= alpha * d <= 0.0;
    }
  }

  /** With reward 0 and discount 0 the blend scales the estimate by (1 - alpha). */
  lemma ZeroTargetContracts(oldValue: real, nextMax: real, alpha: real)
    requires 0.0 < alpha <= 1.0
    ensures Blend(oldValue, 0.0, nextMax, alpha, 0.0) == (1.0 - alpha) * oldValue
    ensures oldValue >= 0.0 ==> 0.0 <= Blend(oldValue, 0.0, nextMax, alpha, 0.0) <= oldValue
    ensures oldValue <= 0.0 ==> oldValue <= Blend(oldValue, 0.0, nextMax, alpha, 0.0) <= 0.0
  {
    BlendBetween(oldValue, 0.0, nextMax, alpha, 0.0);
    assert 0.0 + 0.0 * nextMax == 0.0;
  }

  /** With reward 0 and discount 0, one update of cell [s][a] moves it toward 0 from
      either side without crossing it, so repeated updates form a monotone sequence
      bounded by 0. */
  lemma LearnedTowardZero(t: Table, n: nat, alpha: real, s: Key, a: nat, s': Key)
    requires WellFormed(t, n)
    requires a < n
    requires 0.0 < alpha <= 1.0
    ensures var v, v' := Lookup(t, n, s)[a], Learned(t, n, alpha, 0.0, s, a, 0.0, s')[s][a];
      (v >= 0.0 ==> 0.0 <= v' <= v) && (v <= 0.0 ==> v <= v' <= 0.0)
  {
    var v := Lookup(t, n, s)[a];
    ZeroTargetContracts(v, RowMax(Lookup(t, n, s')), alpha);
  }
}
