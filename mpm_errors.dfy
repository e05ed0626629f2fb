/** The error conditions the updated-Lagrangian element raises. */
module MpmErrors {

  datatype ElementError =
    | InvertedElement(detF: real)     // |F| < 0 in SetGeneralVariables
    | WrongDimension(dim: nat)        // B matrix for a dimension other than 2 or 3
    | UnexpectedRhsComponent          // a right-hand-side variable other than the two force vectors
    | UnexpectedLhsComponent          // a left-hand-side variable other than the two stiffness matrices
    | MissingConstitutiveLaw          // no CONSTITUTIVE_LAW in the properties
    | ExplicitFinalize                // FinalizeSolutionStep called in an explicit analysis
    | DivisionByZero                  // a quotient whose divisor is zero
    | UnknownVariable                 // a getter or setter asked for a variable it does not serve
    | TooManyIntegrationPoints        // a setter given more than one value
}
