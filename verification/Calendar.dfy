/** The range of the calendar library's years, in seconds from 1970. */
module Calendar {
  const MIN_SECONDS := -8334601228800
  const MAX_SECONDS := 8210266876799
}
