/** Splitting the pending actions of one tick into timeslot frames. */
module Batching {
  import opened Bytes
  import opened Frames
  import opened Actions

  type Group = seq<PlayerAction>

  function Concat(groups: seq<Group>): (actions: seq<PlayerAction>)
  {
    if groups == [] then [] else groups[0] + Concat(groups[1..])
  }

  /** Every group fits one frame. */
  predicate Fits(groups: seq<Group>)
  {
    forall i | 0 <= i < |groups| :: ByteCount(groups[i]) <= MAX_SUBPACKET_BYTES
  }

  /** No group could have taken the first action of the next one. */
  predicate Greedy(groups: seq<Group>)
  {
    && (forall i | 0 <= i < |groups| :: groups[i] != [])
    && (forall i | 0 <= i < |groups| - 1 ::
          ByteCount(groups[i]) + RecordLength(groups[i + 1][0]) > MAX_SUBPACKET_BYTES)
  }

  /** The greedy split of `actions`. */
  predicate IsGreedySplit(actions: seq<PlayerAction>, groups: seq<Group>)
  {
    Concat(groups) == actions && Fits(groups) && Greedy(groups)
  }

  /** The length of the longest prefix that fits `budget` bytes. */
  function FittingPrefix(actions: seq<PlayerAction>, budget: nat): (n: nat)
    ensures n <= |actions|
  {
    if actions == [] || RecordLength(actions[0]) > budget then 0
    else 1 + FittingPrefix(actions[1..], budget - RecordLength(actions[0]))
  }

  /** `n` actions fit and one more would not. */
  predicate IsLongestFit(actions: seq<PlayerAction>, budget: nat, n: nat)
  {
    && n <= |actions|
    && ByteCount(actions[..n]) <= budget
    && (n < |actions| ==> ByteCount(actions[..n]) + RecordLength(actions[n]) > budget)
  }

  lemma {:induction false} FittingPrefixIsLongest(actions: seq<PlayerAction>, budget: nat)
    ensures IsLongestFit(actions, budget, FittingPrefix(actions, budget))
  {
    if actions == [] || RecordLength(actions[0]) > budget {
      assert actions[..0] == [];
    } else {
      var n := FittingPrefix(actions, budget);
      FittingPrefixIsLongest(actions[1..], budget - RecordLength(actions[0]));
      assert actions[..n][1..] == actions[1..][..n - 1];
    }
  }

  lemma PrefixGrows(actions: seq<PlayerAction>, n: nat, m: nat)
    requires n < m <= |actions|
    ensures ByteCount(actions[..m]) >= ByteCount(actions[..n]) + RecordLength(actions[n])
  {
    assert actions[..m] == actions[..n] + ([actions[n]] + actions[n + 1..m]);
    ByteCountAppend(actions[..n], [actions[n]] + actions[n + 1..m]);
    ByteCountAppend([actions[n]], actions[n + 1..m]);
  }

  lemma FittingPrefixUnique(actions: seq<PlayerAction>, budget: nat, n: nat)
    requires IsLongestFit(actions, budget, n)
    ensures FittingPrefix(actions, budget) == n
  {
    var m := FittingPrefix(actions, budget);
    FittingPrefixIsLongest(actions, budget);
    if m < n {
      PrefixGrows(actions, m, n);
    } else if n < m {
      PrefixGrows(actions, n, m);
    }
  }

  function Split(actions: seq<PlayerAction>): (groups: seq<Group>)
    requires ValidActions(actions)
    decreases |actions|
  {
    if actions == [] then []
    else
      assert ValidAction(actions[0]);
      var n := FittingPrefix(actions, MAX_SUBPACKET_BYTES);
      [actions[..n]] + Split(actions[n..])
  }

  lemma SplitUnfolds(actions: seq<PlayerAction>, n: nat)
    requires ValidActions(actions) && actions != [] && IsLongestFit(actions, MAX_SUBPACKET_BYTES, n)
    ensures n > 0
    ensures Split(actions) == [actions[..n]] + Split(actions[n..])
  {
    assert ValidAction(actions[0]);
    FittingPrefixUnique(actions, MAX_SUBPACKET_BYTES, n);
  }

  lemma {:induction false} SplitIsGreedy(actions: seq<PlayerAction>)
    requires ValidActions(actions)
    ensures IsGreedySplit(actions, Split(actions))
    ensures actions != [] ==> Split(actions) != [] && Split(actions)[0] != [] && Split(actions)[0][0] == actions[0]
    decreases |actions|
  {
    if actions != [] {
      var n := FittingPrefix(actions, MAX_SUBPACKET_BYTES);
      FittingPrefixIsLongest(actions, MAX_SUBPACKET_BYTES);
      SplitUnfolds(actions, n);
      SplitIsGreedy(actions[n..]);
      GreedyExtends(actions[..n], Split(actions[n..]));
      assert actions[..n] + actions[n..] == actions;
    }
  }

  lemma GreedyExtends(first: Group, groups: seq<Group>)
    requires first != [] && Greedy(groups)
    requires groups != [] ==> ByteCount(first) + RecordLength(groups[0][0]) > MAX_SUBPACKET_BYTES
    ensures Greedy([first] + groups)
  {
  }

  lemma {:induction false} FirstGroup(groups: seq<Group>)
    requires groups != []
    ensures Concat(groups)[..|groups[0]|] == groups[0]
    ensures Concat(groups)[|groups[0]|..] == Concat(groups[1..])
  {
  }

  lemma FirstGroupIsLongest(actions: seq<PlayerAction>, groups: seq<Group>)
    requires groups != [] && IsGreedySplit(actions, groups)
    ensures IsLongestFit(actions, MAX_SUBPACKET_BYTES, |groups[0]|)
  {
    FirstGroup(groups);
    if |groups| > 1 {
      FirstGroup(groups[1..]);
      assert actions[|groups[0]|] == groups[1][0];
    } else {
      assert Concat(groups[1..]) == [];
    }
  }

  lemma GreedyTail(groups: seq<Group>)
    requires groups != [] && Greedy(groups)
    ensures Greedy(groups[1..])
  {
    forall i | 0 <= i < |groups[1..]| - 1
      ensures ByteCount(groups[1..][i]) + RecordLength(groups[1..][i + 1][0]) > MAX_SUBPACKET_BYTES
    {
      assert groups[1..][i] == groups[i + 1] && groups[1..][i + 1] == groups[i + 2];
    }
  }

  /** The greedy split is unique. */
  lemma {:induction false} GreedySplitUnique(actions: seq<PlayerAction>, groups: seq<Group>)
    requires ValidActions(actions) && IsGreedySplit(actions, groups)
    ensures groups == Split(actions)
    decreases |actions|
  {
    if groups != [] {
      var n := |groups[0]|;
      FirstGroup(groups);
      FirstGroupIsLongest(actions, groups);
      SplitUnfolds(actions, n);
      GreedyTail(groups);
      GreedySplitUnique(actions[n..], groups[1..]);
    }
  }

  /** Two neighbouring groups together never fit one frame. */
  lemma NeighboursOverflow(actions: seq<PlayerAction>, i: nat)
    requires ValidActions(actions) && i + 1 < |Split(actions)|
    ensures ByteCount(Split(actions)[i] + Split(actions)[i + 1]) > MAX_SUBPACKET_BYTES
  {
    SplitIsGreedy(actions);
    var groups := Split(actions);
    ByteCountAppend(groups[i], groups[i + 1]);
  }

  /** No order-preserving split into groups that fit uses fewer frames. */
  lemma {:induction false} SplitIsMinimal(actions: seq<PlayerAction>, other: seq<Group>)
    requires ValidActions(actions)
    requires Concat(other) == actions && Fits(other)
    ensures |Split(actions)| <= |other|
  {
    assert [] + actions == actions;
    SuffixNeedsNoMore([], actions, other);
  }

  /** A suffix of what `other` splits needs at most as many groups: greedy stays ahead. */
  lemma {:induction false} SuffixNeedsNoMore(before: seq<PlayerAction>, suffix: seq<PlayerAction>, other: seq<Group>)
    requires ValidActions(suffix) && Concat(other) == before + suffix && Fits(other)
    ensures |Split(suffix)| <= |other|
    decreases |other|
  {
    if suffix != [] && other != [] {
      var n := FittingPrefix(suffix, MAX_SUBPACKET_BYTES);
      FittingPrefixIsLongest(suffix, MAX_SUBPACKET_BYTES);
      SplitUnfolds(suffix, n);
      FirstGroup(other);
      var first := other[0];
      assert first <= before + suffix;
      FirstEndsByThen(before, suffix, first, n);
      var passed := before + suffix[..n];
      assert passed + suffix[n..] == before + suffix;
      assert passed[|first|..] + suffix[n..] == (before + suffix)[|first|..];
      SuffixNeedsNoMore(passed[|first|..], suffix[n..], other[1..]);
    }
  }

  /** Otherwise `first` would hold the greedy prefix and one action more. */
  lemma FirstEndsByThen(before: seq<PlayerAction>, suffix: seq<PlayerAction>, first: Group, n: nat)
    requires IsLongestFit(suffix, MAX_SUBPACKET_BYTES, n)
    requires first <= before + suffix && ByteCount(first) <= MAX_SUBPACKET_BYTES
    ensures |first| <= |before| + n
  {
    if |before| + n < |first| {
      var taken := |first| - |before|;
      assert first == before + suffix[..taken];
      ByteCountAppend(before, suffix[..taken]);
      PrefixGrows(suffix, n, taken);
    }
  }

  /** The frames of one tick, or the validation error of the first action that cannot be sent. */
  function TickFrames(crc: Crc, increment: u16, actions: seq<PlayerAction>): (r: Result<seq<Frame>, ActionError>)
  {
    if ValidActions(actions) then
      SplitIsGreedy(actions);
      Ok(if actions == [] then [TimeslotFrame(crc, Timeslot(false, increment, []))]
         else GroupFrames(crc, increment, Split(actions)))
    else Err(FirstInvalid(actions))
  }

  function FirstInvalid(actions: seq<PlayerAction>): (e: ActionError)
    requires !ValidActions(actions)
  {
    if !ValidAction(actions[0]) then NewAction(actions[0].player, actions[0].data).error
    else
      assert forall i | 0 < i < |actions| :: actions[i] == actions[1..][i - 1];
      FirstInvalid(actions[1..])
  }

  function GroupFrames(crc: Crc, increment: u16, groups: seq<Group>): (frames: seq<Frame>)
    requires Fits(groups)
    ensures |frames| == |groups|
  {
    if groups == [] then []
    else if |groups| == 1 then [TimeslotFrame(crc, Timeslot(false, increment, groups[0]))]
    else [TimeslotFrame(crc, Timeslot(true, 0, groups[0]))] + GroupFrames(crc, increment, groups[1..])
  }

  method EncodeActionGroup(crc: Crc, packetId: u8, increment: u16, actions: seq<PlayerAction>)
    returns (r: Result<Frame, ActionError>)
    requires forall i | 0 <= i < |actions| :: |actions[i].data| < 0x1_0000
    ensures r == if |TimeslotPayload(crc, increment, actions)| <= MAX_WIRE_LENGTH - HEADER_LENGTH
                 then Ok(Frame(packetId, TimeslotPayload(crc, increment, actions)))
                 else
                   var length := HEADER_LENGTH + |TimeslotPayload(crc, increment, actions)|;
                   Err(Framing(FrameTooLarge(length, MAX_WIRE_LENGTH)))
  {
    var bytes: seq<u8> := [];
    for i := 0 to |actions|
      invariant bytes == Records(actions[..i])
    {
      var action := actions[i];
      assert actions[..i + 1] == actions[..i] + [action];
      RecordsAppend(actions[..i], [action]);
      assert Records([action]) == Record(action);
      ghost var before := bytes;
      bytes := bytes + [action.player];
      bytes := bytes + Le(2, |action.data|);
      bytes := bytes + action.data;
      assert bytes == before + Record(action);
    }
    assert actions[..|actions|] == actions;
    var payload := Le(2, increment);
    payload := payload + Le(2, Crc16(crc, bytes));
    payload := payload + bytes;
    var frame := NewFrame(packetId, payload);
    if frame.Err? {
      return Err(Framing(frame.error));
    }
    r := Ok(frame.value);
  }

  /** The groups the splitting loop has pushed, followed by what it will push, are the greedy split. */
  ghost predicate SplitSoFar(actions: seq<PlayerAction>, groups: seq<Group>, start: nat, index: nat, bytes: nat)
    requires ValidActions(actions)
  {
    && start <= index <= |actions|
    && (start == index ==> index == 0)
    && Split(actions) == groups + Split(actions[start..])
    && ByteCount(actions[start..index]) == bytes <= MAX_SUBPACKET_BYTES
  }

  /** The current group cannot take the next action: it is complete. */
  lemma SplitCloses(actions: seq<PlayerAction>, groups: seq<Group>, start: nat, index: nat, bytes: nat)
    requires ValidActions(actions) && SplitSoFar(actions, groups, start, index, bytes) && index < |actions|
    requires bytes > 0 && bytes + RecordLength(actions[index]) > MAX_SUBPACKET_BYTES
    ensures SplitSoFar(actions, groups + [actions[start..index]], index, index + 1, RecordLength(actions[index]))
  {
    var rest := actions[start..];
    var n := index - start;
    assert rest[..n] == actions[start..index];
    assert rest[n..] == actions[index..];
    SplitUnfolds(rest, n);
    assert groups + ([actions[start..index]] + Split(actions[index..]))
        == (groups + [actions[start..index]]) + Split(actions[index..]);
    assert actions[index..index + 1] == [actions[index]];
    assert ValidAction(actions[index]);
  }

  /** The current group takes the next action. */
  lemma SplitGrows(actions: seq<PlayerAction>, groups: seq<Group>, start: nat, index: nat, bytes: nat)
    requires ValidActions(actions) && SplitSoFar(actions, groups, start, index, bytes) && index < |actions|
    requires bytes + RecordLength(actions[index]) <= MAX_SUBPACKET_BYTES
    ensures SplitSoFar(actions, groups, start, index + 1, bytes + RecordLength(actions[index]))
  {
    assert actions[start..index + 1] == actions[start..index] + [actions[index]];
    ByteCountAppend(actions[start..index], [actions[index]]);
  }

  /** The splitting loop and the group that is still open when it ends. */
  method SplitIntoGroups(actions: seq<PlayerAction>) returns (r: Result<seq<Group>, ActionError>)
    requires actions != []
    ensures r == if ValidActions(actions) then Ok(Split(actions)) else Err(FirstInvalid(actions))
  {
    var groups: seq<Group> := [];
    var groupStart := 0;
    var groupBytes: nat := 0;
    for index := 0 to |actions|
      invariant forall i | 0 <= i < index :: ValidAction(actions[i])
      invariant groupBytes > 0 <==> index > 0
      invariant 0 <= groupStart <= index
      invariant ValidActions(actions) ==> SplitSoFar(actions, groups, groupStart, index, groupBytes)
    {
      var action := actions[index];
      if action.player == 0 {
        InvalidAt(actions, index);
        return Err(InvalidPlayerId);
      }
      if |action.data| > MAX_ACTION_DATA_BYTES {
        InvalidAt(actions, index);
        return Err(ActionDataTooLarge(|action.data|));
      }
      // An action that passed the two checks above takes at most 1452 bytes.
      var actionBytes := RecordLength(action);
      if groupBytes > 0 && groupBytes + actionBytes > MAX_SUBPACKET_BYTES {
        if ValidActions(actions) {
          SplitCloses(actions, groups, groupStart, index, groupBytes);
        }
        groups := groups + [actions[groupStart..index]];
        groupStart := index;
        groupBytes := 0;
      } else if ValidActions(actions) {
        SplitGrows(actions, groups, groupStart, index, groupBytes);
      }
      groupBytes := groupBytes + actionBytes;
    }
    SplitEnds(actions, groups, groupStart, groupBytes);
    groups := groups + [actions[groupStart..]];
    r := Ok(groups);
  }

  lemma SplitEnds(actions: seq<PlayerAction>, groups: seq<Group>, start: nat, bytes: nat)
    requires ValidActions(actions) && actions != [] && SplitSoFar(actions, groups, start, |actions|, bytes)
    ensures Split(actions) == groups + [actions[start..]]
  {
    var rest := actions[start..];
    assert rest[..|rest|] == rest == actions[start..|actions|];
    assert rest[|rest|..] == [];
    SplitUnfolds(rest, |rest|);
  }

  /** The encoding loop: fragments first, the closing frame last. */
  method EncodeGroups(crc: Crc, increment: u16, groups: seq<Group>) returns (frames: seq<Frame>)
    requires Fits(groups) && forall i | 0 <= i < |groups| :: groups[i] != [] && ValidActions(groups[i])
    ensures frames == GroupFrames(crc, increment, groups)
  {
    var lastIndex := |groups| - 1;
    frames := [];
    assert groups[0..] == groups;
    for index := 0 to |groups|
      invariant frames + GroupFrames(crc, increment, groups[index..]) == GroupFrames(crc, increment, groups)
    {
      var fragment := index != lastIndex;
      var group := groups[index];
      assert ByteCount(group) <= MAX_SUBPACKET_BYTES && ValidActions(group);
      var frame := EncodeActionGroup(crc, if fragment then INCOMING_ACTION_2 else INCOMING_ACTION,
                                     if fragment then 0 else increment, group);
      GroupFramesStep(crc, increment, groups, index, frames, frame.value);
      frames := frames + [frame.value];
    }
    assert groups[|groups|..] == [];
    assert frames + [] == frames;
  }

  lemma GroupFramesStep(crc: Crc, increment: u16, groups: seq<Group>, index: nat, frames: seq<Frame>, frame: Frame)
    requires Fits(groups) && index < |groups| && groups[index] != []
    requires var fragment := index != |groups| - 1;
             frame == Frame(if fragment then INCOMING_ACTION_2 else INCOMING_ACTION,
                            TimeslotPayload(crc, if fragment then 0 else increment, groups[index]))
    ensures frames + GroupFrames(crc, increment, groups[index..])
            == frames + [frame] + GroupFrames(crc, increment, groups[index + 1..])
  {
    assert groups[index..][1..] == groups[index + 1..];
    assert groups[index..][0] == groups[index];
    assert GroupFrames(crc, increment, groups[index..]) == [frame] + GroupFrames(crc, increment, groups[index + 1..]);
  }

  method IncomingActionFrames(crc: Crc, increment: u16, actions: seq<PlayerAction>)
    returns (r: Result<seq<Frame>, ActionError>)
    ensures r == TickFrames(crc, increment, actions)
  {
    if actions == [] {
      var frame := NewFrame(INCOMING_ACTION, Le(2, increment));
      return Ok([frame.value]);
    }
    var groups := SplitIntoGroups(actions);
    if groups.Err? {
      return Err(groups.error);
    }
    SplitIsGreedy(actions);
    forall i | 0 <= i < |groups.value| ensures ValidActions(groups.value[i]) {
      MembersAreValid(actions, groups.value, i);
    }
    var frames := EncodeGroups(crc, increment, groups.value);
    r := Ok(frames);
  }

  lemma {:induction false} InvalidAt(actions: seq<PlayerAction>, index: nat)
    requires index < |actions| && !ValidAction(actions[index])
    requires forall i | 0 <= i < index :: ValidAction(actions[i])
    ensures !ValidActions(actions)
    ensures FirstInvalid(actions) == NewAction(actions[index].player, actions[index].data).error
  {
    if index > 0 {
      assert ValidAction(actions[0]);
      InvalidAt(actions[1..], index - 1);
    }
  }

  lemma {:induction false} MembersAreValid(actions: seq<PlayerAction>, groups: seq<Group>, index: nat)
    requires ValidActions(actions) && Concat(groups) == actions && index < |groups|
    ensures ValidActions(groups[index])
  {
    FirstGroup(groups);
    if index > 0 {
      MembersAreValid(actions[|groups[0]|..], groups[1..], index - 1);
    }
  }

  /** What Warcraft reads off a list of frames. */
  function DecodeAll(crc: Crc, frames: seq<Frame>): (r: Option<seq<Timeslot>>)
    ensures r.Some? ==> |r.value| == |frames|
  {
    if frames == [] then Some([])
    else
      var first := DecodeTimeslot(crc, frames[0]);
      var others := DecodeAll(crc, frames[1..]);
      if first.Ok? && others.Some? then Some([first.value] + others.value) else None
  }

  function ActionsOf(slots: seq<Timeslot>): (actions: seq<PlayerAction>)
  {
    if slots == [] then [] else slots[0].actions + ActionsOf(slots[1..])
  }

  /** One closing timeslot that carries the whole increment, after action-carrying fragments that carry none. */
  predicate WellFormedTick(increment: u16, slots: seq<Timeslot>)
  {
    && slots != []
    && (forall i | 0 <= i < |slots| - 1 :: slots[i].fragment && slots[i].increment == 0 && slots[i].actions != [])
    && !slots[|slots| - 1].fragment
    && slots[|slots| - 1].increment == increment
  }

  /** The frames are small enough, decode, deliver exactly `actions` and advance the clock once. */
  predicate Carries(crc: Crc, increment: u16, frames: seq<Frame>, actions: seq<PlayerAction>)
  {
    && (forall i | 0 <= i < |frames| :: EncodedLength(frames[i]) <= MAX_TIMESLOT_BYTES)
    && DecodeAll(crc, frames).Some?
    && ActionsOf(DecodeAll(crc, frames).value) == actions
    && WellFormedTick(increment, DecodeAll(crc, frames).value)
  }

  /** Batching succeeds exactly on valid actions; it loses nothing, reorders nothing, advances the clock once. */
  lemma TickFramesCorrect(crc: Crc, increment: u16, actions: seq<PlayerAction>)
    ensures TickFrames(crc, increment, actions).Ok? <==> ValidActions(actions)
    ensures ValidActions(actions) ==> Carries(crc, increment, TickFrames(crc, increment, actions).value, actions)
  {
    if ValidActions(actions) {
      if actions == [] {
        ClosingCarries(crc, increment, []);
      } else {
        SplitIsGreedy(actions);
        GroupFramesCorrect(crc, increment, Split(actions), actions);
      }
    }
  }

  lemma ClosingCarries(crc: Crc, increment: u16, actions: seq<PlayerAction>)
    requires ValidActions(actions) && ByteCount(actions) <= MAX_SUBPACKET_BYTES
    ensures Carries(crc, increment, [TimeslotFrame(crc, Timeslot(false, increment, actions))], actions)
  {
    var t := Timeslot(false, increment, actions);
    TimeslotRoundTrip(crc, t);
    assert DecodeAll(crc, [TimeslotFrame(crc, t)]) == Some([t] + []);
    assert t.actions + [] == actions;
  }

  lemma FragmentCarries(crc: Crc, increment: u16, t: Timeslot, frames: seq<Frame>, actions: seq<PlayerAction>)
    requires ValidTimeslot(t) && t.fragment && Carries(crc, increment, frames, actions)
    ensures Carries(crc, increment, [TimeslotFrame(crc, t)] + frames, t.actions + actions)
  {
    TimeslotRoundTrip(crc, t);
    var slots := DecodeAll(crc, frames).value;
    assert ([TimeslotFrame(crc, t)] + frames)[1..] == frames;
    assert DecodeAll(crc, [TimeslotFrame(crc, t)] + frames) == Some([t] + slots);
    assert ([t] + slots)[1..] == slots;
  }

  lemma {:induction false} GroupFramesCorrect(crc: Crc, increment: u16, groups: seq<Group>, actions: seq<PlayerAction>)
    requires ValidActions(actions) && Concat(groups) == actions && Fits(groups)
    requires groups != [] && forall i | 0 <= i < |groups| :: groups[i] != []
    ensures Carries(crc, increment, GroupFrames(crc, increment, groups), actions)
  {
    MembersAreValid(actions, groups, 0);
    FirstGroup(groups);
    if |groups| == 1 {
      assert Concat(groups[1..]) == [];
      ClosingCarries(crc, increment, groups[0]);
    } else {
      GroupFramesCorrect(crc, increment, groups[1..], actions[|groups[0]|..]);
      FragmentCarries(crc, increment, Timeslot(true, 0, groups[0]),
                      GroupFrames(crc, increment, groups[1..]), actions[|groups[0]|..]);
      assert groups[0] + actions[|groups[0]|..] == actions;
    }
  }
}
