/** Failure values shared by the whole model: every exception the Java code
    throws (explicitly, or through the matrix library) becomes an `Error`. */
module Results {

  datatype Error =
    | TooFewLayers              // "Network must have at least two layers"
    | NonPositiveInputSize      // "Network input size must be greater than 0"
    | NegativeMatrixSize        // the matrix library refuses a negative dimension
    | WeightsColumnsMismatch(layer: nat)  // "Layer i weights columns ... does not match previous layer size"
    | BiasesRowsMismatch(layer: nat)      // "Layer i biases rows ... does not match layer size"
    | BiasesNotVector           // "Biases should be a vector"
    | InputsNotVector           // "Inputs must be a vector"
    | InputsLengthMismatch      // "Inputs length ... must match network input size"
    | MatrixDimensionMismatch   // the matrix library refuses mult/plus of ill-shaped operands
    | CellOutOfBounds           // the matrix library refuses get/set outside the matrix
    | AlreadyStarted            // "Generation has already started"
    | NoScores                  // unboxing the null returned for an empty score list
    | NegativeArraySize         // `new NeuralNetwork[n]` with n < 0
    | IndexOutOfRange           // a rank past the end of the score list, or a slot past the end of the new population
    | NonPositiveBound          // `Random.nextInt(bound)` with bound <= 0
    | QuotasExceedPopulation    // IllegalArgumentException of the driver's constructor

  datatype Result<+T> = Ok(value: T) | Err(error: Error) {
    predicate IsFailure() { Err? }
    function PropagateFailure<U>(): Result<U>
      requires Err?
    {
      Err(error)
    }
    function Extract(): T
      requires Ok?
    {
      value
    }
  }

  datatype Outcome = Pass | Fail(error: Error)
}
