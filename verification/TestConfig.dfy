/** The constants of TEST_CONFIG in web/state.js that several modules use. */
module TestConfig {
  const MAX_NETWORK_RETRIES := 2
  const FAST_MEASURE_SECONDS := 3.0
}
