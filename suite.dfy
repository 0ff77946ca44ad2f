/**
 * `find_and_test_all`: test every discovered file in enumeration order, stopping
 * at the first file whose test does not return True (the `assert` on the verdict
 * raises, and so does anything the test itself raises).
 */
module Suite {
  import opened Wrappers

  /** How a run of the suite ends. */
  datatype SuiteResult<+E> =
    | Completed                       // every file passed; the function returns None
    | FailedAt(index: nat)            // the test of this file returned False
    | RaisedAt(index: nat, error: E)  // the test of this file raised `error`

  /** Every file in `files` passes its test. */
  predicate AllPass<F, E>(files: seq<F>, test: F -> Result<bool, E>) {
    forall j :: 0 <= j < |files| ==> test(files[j]) == Ok(true)
  }

  /** Runs `test` on each of `files` in order and returns how the run ended and
      the files whose test was started, in the order they were started. */
  method FindAndTestAll<F, E>(files: seq<F>, test: F -> Result<bool, E>)
    returns (r: SuiteResult<E>, tested: seq<F>)
    ensures r.Completed? <==> AllPass(files, test)
    ensures r.Completed? ==> tested == files
    ensures !r.Completed? ==>
      && r.index < |files|
      && tested == files[..r.index + 1]
      && AllPass(files[..r.index], test)
    ensures r.FailedAt? ==> test(files[r.index]) == Ok(false)
    ensures r.RaisedAt? ==> test(files[r.index]) == Err(r.error)
  {
    tested := [];
    for i := 0 to |files|
      invariant tested == files[..i]
      invariant AllPass(files[..i], test)
    {
      var myfile := files[i];
      tested := tested + [myfile];
      var verdict := test(myfile);
      match verdict {
        case Err(e) =>
          assert files[..i + 1] == tested;
          return RaisedAt(i, e), tested;
        case Ok(passed) =>
          if !passed {
            return FailedAt(i), tested;
          }
      }
      assert files[..i + 1] == files[..i] + [myfile];
    }
    assert files[..|files|] == files;
    r := Completed;
  }
}
