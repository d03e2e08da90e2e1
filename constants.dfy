/** src/constants/message/auth.constant.ts, AUTH_MESSAGES. */
module AuthMessages {
  const INVALID_CREDENTIALS: string := "Invalid email or password"
  const EMAIL_EXISTS: string := "Email already exists"
  const UNVERIFIED_EMAIL: string := "Please verify your email first"
  const INVALID_REFRESH_TOKEN: string := "Invalid refresh token"
  const INVALID_VERIFICATION_TOKEN: string := "Invalid or expired verification token"
  const RATE_LIMIT_EXCEEDED: string := "Too many requests, please try again later"
  const INVALID_RESET_TOKEN: string := "Invalid or expired reset token"
  const PASSWORDS_DO_NOT_MATCH: string := "Passwords do not match"

  const REGISTERED: string := "Registration successful. Please check your email for verification"
  const LOGGED_IN: string := "Logged in successfully"
  const LOGGED_OUT: string := "Logged out successfully"
  const EMAIL_VERIFIED: string := "Email verified successfully"
  const TOKEN_REFRESHED: string := "Token refreshed successfully"
  const PASSWORD_CHANGED_SUCCESSFULLY: string := "Password has been changed successfully"
  const RESET_PASSWORD_EMAIL_SENT: string := "If an account exists with that email, we have sent password reset instructions"
  const PASSWORD_RESET_SUCCESSFULLY: string := "Your password has been reset successfully"
}

/** src/constants/pagination.constant.ts. */
module PaginationConstants {
  import opened Text

  const DEFAULT_PAGE: int := 1
  const DEFAULT_LIMIT: int := 10
  const MAX_LIMIT: int := 100
  const DEFAULT_SORT: string := "createdAt:desc"
  const ALLOWED_SORT_FIELDS: seq<string> := ["name", "createdAt", "updatedAt"]
  const MIN_SEARCH_LENGTH: int := 1
  const MAX_SEARCH_LENGTH: int := 50
  const TIMEOUT_MS: int := 10000

  /** ALLOWED_FIELD_PATTERNS, `/^[a-zA-Z0-9,_]+$/`. */
  predicate AllowedFieldPattern(s: string) {
    |s| >= 1 && AllFieldChars(s)
  }

  predicate FieldChar(c: char) {
    IsAsciiAlnum(c) || c == ',' || c == '_'
  }

  predicate AllFieldChars(s: string) {
    |s| == 0 || (FieldChar(s[0]) && AllFieldChars(s[1..]))
  }

  /**
   * ALLOWED_SEARCH_PATTERN, `/^[a-zA-Z0-9\s-_]+$/`: the '-' after the class
   * escape `\s` is a literal, so the class is letters, digits, white space,
   * '-' and '_'.
   */
  predicate AllowedSearchPattern(s: string) {
    |s| >= 1 && AllSearchChars(s)
  }

  predicate SearchChar(c: char) {
    IsAsciiAlnum(c) || IsJsWhitespace(c) || c == '-' || c == '_'
  }

  predicate AllSearchChars(s: string) {
    |s| == 0 || (SearchChar(s[0]) && AllSearchChars(s[1..]))
  }

  const INVALID_PAGE: string := "Page must be a positive integer"
  const INVALID_LIMIT: string := "Limit must be a positive integer"
  const INVALID_FIELDS: string := "Fields parameter contains invalid characters"
  const INVALID_SEARCH: string := "Search parameter contains invalid characters or length"

  /**
   * `INVALID_SORT(ALLOWED_SORT_FIELDS)`: the fixed text followed by the
   * allowed fields joined with ", ".
   */
  const INVALID_SORT: string := "Invalid sort parameter. Format should be field:asc|desc. Allowed fields: name, createdAt, updatedAt"
}

/** src/constants/message/transform.constant.ts. */
module TransformConstants {
  const SUCCESS: string := "Success"
  const ERROR: string := "Error"
  const CREATED: string := "Created successfully"
  const UPDATED: string := "Updated successfully"
  const DELETED: string := "Deleted successfully"
  const FETCHED: string := "Fetched successfully"

  const STANDARD: string := "standard"
  const PAGINATED: string := "paginated"
  const AUTH: string := "auth"
  const CUSTOM: string := "custom"

  const SKIP_TRANSFORM_ROUTES: seq<string> := ["/auth/login", "/auth/register", "/auth/refresh", "/health", "/webhooks"]
}
