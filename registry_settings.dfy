/** The registry settings panel (`src/components/RegistrySettings.tsx`): the stored list of registry
    keys kept in step with an add/remove port that may fail. */
module RegistrySettings {
  import opened Common
  import opened Text
  import opened Numbers
  import Seqs

  /** How a call of the port ended: it returned, threw an `Error` with a message, or threw
      something else. */
  datatype Outcome = Succeeded | FailedWithError(message: string) | FailedOther

  /** A call made to the port. */
  datatype PortCall = AddKey(key: string) | RemoveKey(key: string)

  const ComputerPrefix := "Computer\\"
  const EmptyInputError := "Please enter a registry key path"
  const AddFailedError := "Failed to add registry key"

  /** The stored keys as listed: monitored keys first, each group in stored order (a stable sort). */
  function SortedKeys(stored: seq<string>, monitored: seq<string>): seq<string> {
    Seqs.KeyFirst(stored, k => k in monitored)
  }

  /** The listing is a permutation of the stored keys with every monitored key before every
      other one. */
  lemma SortedKeysShape(stored: seq<string>, monitored: seq<string>)
    ensures multiset(SortedKeys(stored, monitored)) == multiset(stored)
    ensures forall i, j :: 0 <= i < j < |stored| && SortedKeys(stored, monitored)[j] in monitored ==>
      SortedKeys(stored, monitored)[i] in monitored
  {
    Seqs.KeyFirstSorted(stored, k => k in monitored);
  }

  /** The input box's rule: one leading `Computer\` is removed, nothing else. */
  function Sanitize(input: string): (r: string)
    ensures StartsWith(input, ComputerPrefix) ==> input == ComputerPrefix + r
    ensures !StartsWith(input, ComputerPrefix) ==> r == input
  {
    if StartsWith(input, ComputerPrefix) then input[|ComputerPrefix|..] else input
  }

  /** The error text for a failed add. */
  function AddError(o: Outcome): string {
    if o.FailedWithError? then o.message else AddFailedError
  }

  /** What adding the presets `keys` leads to: the keys added, and how many adds succeeded or failed. */
  datatype PresetTally = PresetTally(added: seq<string>, addedCount: nat, failedCount: nat)

  /** The presets not already stored, in the order given: the ones sent to the port. */
  function NewKeys(keys: seq<string>, stored: seq<string>): seq<string> {
    Seqs.Filter(keys, k => k !in stored)
  }

  lemma NewKeysSnoc(keys: seq<string>, k: string, stored: seq<string>)
    ensures NewKeys(keys + [k], stored) == NewKeys(keys, stored) + (if k in stored then [] else [k])
  {
    Seqs.FilterConcat(keys, [k], k => k !in stored);
    assert [k][1..] == [];
  }

  /** The port calls that add `ks`, one by one. */
  function AddCalls(ks: seq<string>): (r: seq<PortCall>)
    ensures |r| == |ks|
    decreases |ks|
  {
    if ks == [] then [] else AddCalls(ks[..|ks| - 1]) + [AddKey(ks[|ks| - 1])]
  }

  lemma AddCallsSnoc(ks: seq<string>, k: string)
    ensures AddCalls(ks + [k]) == AddCalls(ks) + [AddKey(k)]
  {
    assert (ks + [k])[..|ks|] == ks;
  }

  /** The preset loop over `keys`: a key already stored is skipped, any other is sent to the port
      and counted by its outcome, `replies[i]` being the outcome for `keys[i]`. */
  function PresetRun(keys: seq<string>, stored: seq<string>, replies: seq<Outcome>): PresetTally
    requires |replies| == |keys|
    decreases |keys|
  {
    if keys == [] then PresetTally([], 0, 0)
    else
      var n := |keys| - 1;
      var t := PresetRun(keys[..n], stored, replies[..n]);
      if keys[n] in stored then t
      else if replies[n].Succeeded? then PresetTally(t.added + [keys[n]], t.addedCount + 1, t.failedCount)
      else PresetTally(t.added, t.addedCount, t.failedCount + 1)
  }

  /** Every attempted key is counted once, as added or failed; only new keys are added, in the
      order given. */
  lemma {:induction false} PresetCounts(keys: seq<string>, stored: seq<string>, replies: seq<Outcome>)
    requires |replies| == |keys|
    ensures PresetRun(keys, stored, replies).addedCount == |PresetRun(keys, stored, replies).added|
    ensures PresetRun(keys, stored, replies).addedCount + PresetRun(keys, stored, replies).failedCount ==
      |NewKeys(keys, stored)|
    ensures forall k :: k in PresetRun(keys, stored, replies).added ==> k in keys && k !in stored
    decreases |keys|
  {
    if keys != [] {
      var n := |keys| - 1;
      PresetCounts(keys[..n], stored, replies[..n]);
      assert keys == keys[..n] + [keys[n]];
      NewKeysSnoc(keys[..n], keys[n], stored);
    }
  }

  /** One more key processed by the preset loop. */
  lemma PresetStep(keys: seq<string>, stored: seq<string>, replies: seq<Outcome>, i: nat)
    requires |replies| == |keys| && i < |keys|
    ensures PresetRun(keys[..i + 1], stored, replies[..i + 1]) ==
      var t := PresetRun(keys[..i], stored, replies[..i]);
      if keys[i] in stored then t
      else if replies[i].Succeeded? then PresetTally(t.added + [keys[i]], t.addedCount + 1, t.failedCount)
      else PresetTally(t.added, t.addedCount, t.failedCount + 1)
    ensures AddCalls(NewKeys(keys[..i + 1], stored)) ==
      AddCalls(NewKeys(keys[..i], stored)) + (if keys[i] in stored then [] else [AddKey(keys[i])])
  {
    assert keys[..i + 1][..i] == keys[..i] && replies[..i + 1][..i] == replies[..i];
    assert keys[..i + 1] == keys[..i] + [keys[i]];
    NewKeysSnoc(keys[..i], keys[i], stored);
    if keys[i] !in stored {
      AddCallsSnoc(NewKeys(keys[..i], stored), keys[i]);
    } else {
      assert NewKeys(keys[..i], stored) + [] == NewKeys(keys[..i], stored);
    }
  }

  /** The message after adding presets: both counts when an add failed, a success message when
      some were added, no change otherwise. */
  function PresetMessage(t: PresetTally): Option<string> {
    if t.failedCount > 0 then
      Some("Added " + NatToDecimal(t.addedCount) + " keys, failed to add " + NatToDecimal(t.failedCount) + " keys")
    else if t.addedCount > 0 then Some("Successfully added " + NatToDecimal(t.addedCount) + " preset keys")
    else None
  }

  /** The message is left unchanged exactly when every preset was already stored; it reports a
      failure exactly when some add failed. */
  lemma PresetMessageCases(keys: seq<string>, stored: seq<string>, replies: seq<Outcome>)
    requires |replies| == |keys|
    ensures PresetMessage(PresetRun(keys, stored, replies)).None? <==> NewKeys(keys, stored) == []
    ensures PresetRun(keys, stored, replies).failedCount == 0 <==>
      |PresetRun(keys, stored, replies).added| == |NewKeys(keys, stored)|
  {
    PresetCounts(keys, stored, replies);
  }

  /** The panel's state: the text in the input box, the message shown, the stored keys, the keys
      the monitor reports, and the port calls made. */
  class Panel {
    var registryKeyPath: string
    var addKeyError: string
    var storedKeys: seq<string>
    const monitoredKeys: seq<string>
    var calls: seq<PortCall>

    constructor(stored: seq<string>, monitored: seq<string>)
      ensures registryKeyPath == "" && addKeyError == "" && storedKeys == stored && monitoredKeys == monitored
      ensures calls == []
    {
      registryKeyPath := "";
      addKeyError := "";
      storedKeys := stored;
      monitoredKeys := monitored;
      calls := [];
    }

    /** The input box's `onChange`. */
    method OnInput(input: string)
      modifies this
      ensures registryKeyPath == Sanitize(input)
      ensures addKeyError == old(addKeyError) && storedKeys == old(storedKeys) && calls == old(calls)
    {
      registryKeyPath := Sanitize(input);
    }

    /** `handleAddRegistryKey`: an empty trimmed input is refused without a call; otherwise the
        trimmed key is sent, and appended (even if already stored) only when the port succeeds. */
    method HandleAdd(reply: Outcome)
      modifies this
      ensures Trim(old(registryKeyPath)) == [] ==>
        addKeyError == EmptyInputError && calls == old(calls) && storedKeys == old(storedKeys) &&
        registryKeyPath == old(registryKeyPath)
      ensures Trim(old(registryKeyPath)) != [] ==> calls == old(calls) + [AddKey(Trim(old(registryKeyPath)))]
      ensures Trim(old(registryKeyPath)) != [] && reply.Succeeded? ==>
        storedKeys == old(storedKeys) + [Trim(old(registryKeyPath))] && registryKeyPath == "" && addKeyError == ""
      ensures Trim(old(registryKeyPath)) != [] && !reply.Succeeded? ==>
        storedKeys == old(storedKeys) && registryKeyPath == old(registryKeyPath) && addKeyError == AddError(reply)
    {
      var trimmed := Trim(registryKeyPath);
      addKeyError := "";
      if trimmed == [] {
        addKeyError := EmptyInputError;
        return;
      }
      calls := calls + [AddKey(trimmed)];
      if reply.Succeeded? {
        storedKeys := storedKeys + [trimmed];
        registryKeyPath := "";
      } else {
        addKeyError := AddError(reply);
      }
    }

    /** `handleToggleRegistryKey`: removes a monitored key, adds any other; failures are only
        logged and the stored list never changes. */
    method HandleToggle(keyPath: string, isCurrentlyMonitored: bool)
      modifies this
      ensures calls == old(calls) + [if isCurrentlyMonitored then RemoveKey(keyPath) else AddKey(keyPath)]
      ensures storedKeys == old(storedKeys) && registryKeyPath == old(registryKeyPath) && addKeyError == old(addKeyError)
    {
      calls := calls + [if isCurrentlyMonitored then RemoveKey(keyPath) else AddKey(keyPath)];
    }

    /** `handleRegistryKeyRemove`: asks the port to remove the key only when it is monitored, then,
        unless that call threw, drops every copy of the key from the stored list. */
    method HandleRemove(keyPath: string, reply: Outcome)
      modifies this
      ensures calls == old(calls) + (if keyPath in monitoredKeys then [RemoveKey(keyPath)] else [])
      ensures keyPath in monitoredKeys && !reply.Succeeded? ==> storedKeys == old(storedKeys)
      ensures keyPath !in monitoredKeys || reply.Succeeded? ==>
        storedKeys == Seqs.Filter(old(storedKeys), k => k != keyPath)
      ensures registryKeyPath == old(registryKeyPath) && addKeyError == old(addKeyError)
    {
      if keyPath in monitoredKeys {
        calls := calls + [RemoveKey(keyPath)];
        if !reply.Succeeded? {
          return;
        }
      }
      storedKeys := Seqs.Filter(storedKeys, k => k != keyPath);
    }

    /** `handleAddPresetKeys`: tries each key not already stored, then appends the successful ones
        once, in order, and reports the counts. */
    method HandleAddPresets(keys: seq<string>, replies: seq<Outcome>)
      requires |replies| == |keys|
      modifies this
      ensures storedKeys == old(storedKeys) + PresetRun(keys, old(storedKeys), replies).added
      ensures calls == old(calls) + AddCalls(NewKeys(keys, old(storedKeys)))
      ensures PresetMessage(PresetRun(keys, old(storedKeys), replies)).None? ==> addKeyError == old(addKeyError)
      ensures PresetMessage(PresetRun(keys, old(storedKeys), replies)).Some? ==>
        addKeyError == PresetMessage(PresetRun(keys, old(storedKeys), replies)).value
      ensures registryKeyPath == old(registryKeyPath)
    {
      var stored := storedKeys;
      var added: seq<string> := [];
      var addedCount, failedCount := 0, 0;
      var sent: seq<PortCall> := [];
      for i := 0 to |keys|
        invariant PresetRun(keys[..i], stored, replies[..i]) == PresetTally(added, addedCount, failedCount)
        invariant sent == AddCalls(NewKeys(keys[..i], stored))
        invariant calls == old(calls) && storedKeys == stored == old(storedKeys)
        invariant addKeyError == old(addKeyError) && registryKeyPath == old(registryKeyPath)
      {
        PresetStep(keys, stored, replies, i);
        if keys[i] in stored {
          continue;
        }
        sent := sent + [AddKey(keys[i])];
        if replies[i].Succeeded? {
          added := added + [keys[i]];
          addedCount := addedCount + 1;
        } else {
          failedCount := failedCount + 1;
        }
      }
      assert keys[..|keys|] == keys && replies[..|replies|] == replies;
      assert sent == AddCalls(NewKeys(keys, stored));
      var tally := PresetTally(added, addedCount, failedCount);
      calls := calls + sent;
      if |added| > 0 {
        storedKeys := stored + added;
      } else {
        assert stored + added == stored;
      }
      var message := PresetMessage(tally);
      if message.Some? {
        addKeyError := message.value;
      }
    }
  }
}
