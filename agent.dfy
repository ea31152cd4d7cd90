/** The tabular Q-learning agent: its value table is a dictionary field that
    choose_action and learn grow and overwrite in place. */
module Agent {
  import opened QTable

  class QLearningAgent {
    /** Learning rate. */
    const alpha: real
    /** Discount factor. */
    const gamma: real
    /** Exploration rate; the training loop decays it between episodes. */
    var epsilon: real
    /** Number of actions; every row of the table has this many entries. */
    const actionSpaceSize: nat
    /** The sparse table, keyed by state tuples. */
    var qTable: Table

    /** The table invariant: every materialised row has one entry per action. */
    ghost predicate Valid()
      reads this
    {
      actionSpaceSize >= 1 && WellFormed(qTable, actionSpaceSize)
    }

    /** A new agent starts with an empty table. */
    constructor (actionSpaceSize: nat, alpha: real, gamma: real, epsilon: real)
      requires actionSpaceSize >= 1
      ensures Valid()
      ensures this.actionSpaceSize == actionSpaceSize
      ensures this.alpha == alpha && this.gamma == gamma && this.epsilon == epsilon
      ensures qTable == map[]
    {
      this.alpha := alpha;
      this.gamma := gamma;
      this.epsilon := epsilon;
      this.actionSpaceSize := actionSpaceSize;
      qTable := map[];
    }

    /** Epsilon-greedy choice. `u` is the uniform draw from [0, 1] and `randomAction`
        the uniform action drawn on the exploration branch. Exploring leaves the table
        alone; exploiting materialises the state's row if absent and returns the first
        index of its maximum. */
    method ChooseAction(state: seq<int>, u: real, randomAction: int) returns (action: int)
      requires Valid()
      requires 0.0 <= u <= 1.0
      requires 0 <= randomAction < actionSpaceSize
      modifies this`qTable
      ensures Valid()
      ensures 0 <= action < actionSpaceSize
      ensures u < epsilon ==> action == randomAction && qTable == old(qTable)
      ensures !(u < epsilon) ==>
        var key := StateKey(state);
        && qTable == GetOrInsert(old(qTable), actionSpaceSize, key)
        && action == ArgMax(Lookup(old(qTable), actionSpaceSize, key))
        && key in qTable
        && qTable.Keys == old(qTable).Keys + {key}
        && (forall k :: k in old(qTable) ==> qTable[k] == old(qTable)[k])
        && (key !in old(qTable) ==> qTable[key] == Zeros(actionSpaceSize) && action == 0)
        && qTable[key][action] == RowMax(qTable[key])
        && (forall j :: 0 <= j < action ==> qTable[key][j] < qTable[key][action])
    {
      var key := StateKey(state);
      if u < epsilon {
        return randomAction;
      }
      qTable := GetOrInsert(qTable, actionSpaceSize, key);
      action := ArgMax(qTable[key]);
      if key !in old(qTable) {
        ArgMaxOfZeros(actionSpaceSize);
      }
    }

    /** One-step Q-learning update of cell [state][action]. */
    method Learn(state: seq<int>, action: int, reward: real, nextState: seq<int>)
      requires Valid()
      requires 0 <= action < actionSpaceSize
      modifies this`qTable
      ensures Valid()
      ensures qTable == Learned(old(qTable), actionSpaceSize, alpha, gamma, StateKey(state), action, reward, StateKey(nextState))
    {
      var key := StateKey(state);
      var nextKey := StateKey(nextState);
      var table := GetOrInsert(GetOrInsert(qTable, actionSpaceSize, key), actionSpaceSize, nextKey);
      var oldValue := table[key][action];
      var nextMax := RowMax(table[nextKey]);
      var newValue := Blend(oldValue, reward, nextMax, alpha, gamma);
      qTable := table[key := table[key][action := newValue]];
    }

    /** load_model: the table is replaced wholesale by a previously saved one. */
    method LoadModel(table: Table)
      requires Valid()
      requires WellFormed(table, actionSpaceSize)
      modifies this`qTable
      ensures Valid()
      ensures qTable == table
    {
      qTable := table;
    }
  }
}
