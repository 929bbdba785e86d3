/** How the decoders fail. The source raises Python exceptions (or, for the mean
    of an empty selection, carries NaN forward); the model returns these values. */
module Outcomes {

  datatype Error =
    | ZeroDivision                 // `1/n` (no columns) or `1/n/t**2` (no rows) in covdiag
    | NotAMatrix                   // np.diag of the 0-d array np.cov gives for one row or one column
    | EmptyLabels                  // `min` of an empty bincount
    | SampleLargerThanPopulation(cls: nat)  // random.sample asked for more trials than a class has
    | EmptyClass(cls: nat)         // np.mean over no trials of a class (NaN template)
    | NoZeroBin                    // np.where(angspace_full == 0) is empty
    | NoBinWidth                   // np.diff(angspace)[0] on a grid of fewer than two bins
    | SingleCondition              // mean distance over no other conditions (NaN margin)
    | UnfilledSlot                 // np.mean over a repetition slot no split wrote (NaN), or over none

  datatype Result<T> = Ok(value: T) | Err(error: Error)
}
