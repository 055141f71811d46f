/**
 * The worker job table of src/app/compiler.js: an array that grows by one
 * entry per dispatched compile and in which a reply punches a hole.
 */
module Jobs {
  import opened Patterns
  import opened Classifier

  class JobTable {
    /** `jobs[id]` is `{sources: input}` while the job runs, `None` once deleted. */
    var jobs: seq<Option<Input>>

    /** `var jobs = []` */
    constructor()
      ensures jobs == []
    {
      jobs := [];
    }

    /** `jobs.push({sources: input})`, with `jobs.length - 1` as the job id. */
    method Dispatch(input: Input) returns (id: nat)
      modifies this
      ensures jobs == old(jobs) + [Some(input)]
      ensures id == |jobs| - 1 == old(|jobs|)
    {
      jobs := jobs + [Some(input)];
      id := |jobs| - 1;
    }

    /**
     * `sources = jobs[id].sources; delete jobs[id]`. The table never shrinks,
     * so later dispatches never reuse id.
     */
    method Consume(id: nat) returns (input: Input)
      requires id < |jobs| && jobs[id].Some?
      modifies this
      ensures input == old(jobs[id]).value
      ensures jobs == old(jobs)[id := None]
      ensures |jobs| == old(|jobs|)
      ensures forall k :: 0 <= k < |jobs| && k != id ==> jobs[k] == old(jobs[k])
    {
      input := jobs[id].value;
      jobs := jobs[id := None];
    }
  }
}
