/** The process-wide settings the token code reads from the Flask application's config. */
module Config {

  const SecondsPerHour := 3600

  /** `app.config['JWT_EXPIRATION_HOURS']` as the application sets it. */
  const JwtExpirationHours := 1

  /** The signing secret and the token lifetime, fixed at start-up and never changed. */
  datatype Settings = Settings(secretKey: string, jwtExpirationHours: int)

  /** The application's settings for a given secret. */
  function AppSettings(secretKey: string): (s: Settings)
    ensures s.secretKey == secretKey && TtlSeconds(s) == 3600
  {
    Settings(secretKey, JwtExpirationHours)
  }

  /** The token lifetime in seconds. */
  function TtlSeconds(s: Settings): (seconds: int)
  {
    s.jwtExpirationHours * SecondsPerHour
  }
}
