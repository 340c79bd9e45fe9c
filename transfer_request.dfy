/** The body of a transfer request and the validity predicate that its
    field annotations (@NotNull, @NotEmpty, @Min(1)) amount to. Java's null
    is None. */
module TransferRequest {
  import opened Wrappers

  /** One annotation on one field of the request. */
  datatype Constraint =
    | FromAccountIdNotNull | FromAccountIdNotEmpty
    | ToAccountIdNotNull | ToAccountIdNotEmpty
    | AmountNotNull | AmountAtLeastOne

  /** @NotNull. */
  predicate NotNull<T>(x: Option<T>) { x.Some? }

  /** @NotEmpty on a string: neither null nor "". */
  predicate NotEmpty(x: Option<string>) { x.Some? && x.value != "" }

  /** @Min(min) on a decimal: a null value passes (rejecting it is @NotNull's job). */
  predicate AtLeast(x: Option<real>, min: real) { x.None? || x.value >= min }

  /** The request; its constructor stores the three arguments unchanged. */
  datatype AmountTransferRequest = AmountTransferRequest(
    fromAccountId: Option<string>,
    toAccountId: Option<string>,
    amountToTransfer: Option<real>)
  {
    /** The annotations this request breaks, one entry per failing annotation. */
    function Violations(): (v: set<Constraint>)
      ensures FromAccountIdNotNull in v <==> fromAccountId.None?
      ensures FromAccountIdNotEmpty in v <==> fromAccountId.None? || fromAccountId.value == ""
      ensures ToAccountIdNotNull in v <==> toAccountId.None?
      ensures ToAccountIdNotEmpty in v <==> toAccountId.None? || toAccountId.value == ""
      ensures AmountNotNull in v <==> amountToTransfer.None?
      ensures AmountAtLeastOne in v <==> amountToTransfer.Some? && amountToTransfer.value < 1.0
    {
      (if NotNull(fromAccountId) then {} else {FromAccountIdNotNull})
      + (if NotEmpty(fromAccountId) then {} else {FromAccountIdNotEmpty})
      + (if NotNull(toAccountId) then {} else {ToAccountIdNotNull})
      + (if NotEmpty(toAccountId) then {} else {ToAccountIdNotEmpty})
      + (if NotNull(amountToTransfer) then {} else {AmountNotNull})
      + (if AtLeast(amountToTransfer, 1.0) then {} else {AmountAtLeastOne})
    }

    /** The request passes validation exactly when both ids are present and
        non-empty and the amount is present and at least 1. */
    predicate Valid(): (b: bool)
      ensures b <==>
        && fromAccountId.Some? && |fromAccountId.value| > 0
        && toAccountId.Some? && |toAccountId.value| > 0
        && amountToTransfer.Some? && amountToTransfer.value >= 1.0
    {
      Violations() == {}
    }
  }
}
