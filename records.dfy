/**
 The values exchanged with the CogServer's REST interface and the
 point-in-time snapshots built from them.

 Handles, short-term importance (STI) and timesteps are integers; the
 optional Scheme dump of a snapshot is an `Option<string>` whose `None`
 stands for Python's `None`.
 */
module Records {

  datatype Option<+T> = None | Some(value: T)

  /** The `attentionvalue` object of an atom as the REST interface returns it. */
  datatype AttentionValue = AttentionValue(sti: int, lti: int, vlti: bool)

  /**
   One element of the `atoms` list of a REST response. Besides the two
   fields a snapshot keeps (`handle` and `attentionvalue.sti`), the record
   carries the other fields the server reports, so that two records with
   the same handle can differ.
   */
  datatype AtomRecord = AtomRecord(
    handle: int,
    atomType: string,
    name: string,
    attentionValue: AttentionValue,
    outgoing: seq<int>)

  /** The two-field `{handle, sti}` dictionary stored in a snapshot. */
  datatype AtomSti = AtomSti(handle: int, sti: int)

  /** The PointInTime dictionary: `{timestep, atoms, scheme}`. */
  datatype Point = Point(timestep: int, atoms: seq<AtomSti>, scheme: Option<string>)
}
