/** The states of a transaction record. */
module TxStates {

  datatype TxState = Recorded | Submitted | Landed | Expired

  /** The chain has not decided yet. */
  predicate IsOpenState(st: TxState) { st.Recorded? || st.Submitted? }
}
