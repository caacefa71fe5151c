/** The exception messages the services throw, which the exception handler
    inspects. */
module Messages {
  /** `UserService` and `RecipeService.createRecipe`. */
  const UserNotFound := "User not found"
  /** `RecipeService`, when the id is not stored. */
  const RecipeNotFound := "Recipe not found"
  /** `UserService.createUser` and `updateEmail`. */
  const EmailAlreadyExists := "Email already exists"
  /** `RecipeService.updateRecipe` and `deleteRecipe`, for a caller who is not the owner. */
  const UnauthorizedUpdate := "Unauthorized to update this recipe"
  const UnauthorizedDelete := "Unauthorized to delete this recipe"
  /** `UserService.updatePassword`. */
  const InvalidOldPassword := "Invalid old password"
  /** Stands in for the persistence layer's exception when a NOT NULL column
      would be written as null. */
  const NotNullViolation := "not-null property references a null value"
}
