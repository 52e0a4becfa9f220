/** State of one MIDI channel, shared by the modulation code and the voice runtime. */
module Channels {
  import opened CInt

  const MIDI_VALUES: int := 128
  const GENERATORS: int := 61

  /** Parameter families a voice update may recompute. */
  datatype Group = Gain | Pitch | Filter

  const ALL_GROUPS: set<Group> := {Gain, Pitch, Filter}

  datatype ChannelState = ChannelState(
    cc: seq<U8>, keyPressure: seq<U8>, pitchBend: int, channelPressure: U8,
    bendSemitones: U8, bendCents: U8,
    sustain: bool, sostenuto: bool, soft: bool,
    dirtyGroups: set<Group>, dirtyRevision: U32, offsets: seq<int>)

  /** The arrays in the C structure have fixed lengths. */
  predicate WellFormed(c: ChannelState)
  {
    |c.cc| == MIDI_VALUES && |c.keyPressure| == MIDI_VALUES && |c.offsets| == GENERATORS
  }

  type Channel = c: ChannelState | WellFormed(c) witness PowerOn()

  /** Value after a reset: volume and expression full, pan centred, bend range two semitones. */
  function PowerOn(): (c: ChannelState)
    ensures WellFormed(c)
  {
    ChannelState(
      seq(MIDI_VALUES, _ => 0)[7 := 127][10 := 64][11 := 127], seq(MIDI_VALUES, _ => 0),
      0, 0, 2, 0, false, false, false, {}, 0, seq(GENERATORS, _ => 0))
  }

  /** Families one control step sends: the channel's dirty ones, the moving ones, and the filter
      every fourth tick or whenever ticks are folded. */
  function GroupsToPublish(dirty: set<Group>, periodic: set<Group>, enabled: bool, tickIndex: U32, elapsed: U32): set<Group>
  {
    dirty
    + (if enabled then periodic * {Gain, Pitch} else {})
    + (if enabled && Filter in periodic
          && (elapsed > 1 || ToU32(tickIndex + elapsed - 1) % 4 == 0) then {Filter} else {})
  }
}
