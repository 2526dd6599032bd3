/** The tags a workflow item passes to its operation and views to say what changed. */
module Changes {

  datatype Changed = VIEW | RESULT | PREV_RESULT | ESTIMATE_RESULT | ESTIMATE | OPERATION
}
