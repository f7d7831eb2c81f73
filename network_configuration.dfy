/** The per-call-kind timeout and retry settings and their two presets. */
module NetworkConfig {

  /**
   * An immutable settings record; its memberwise constructor stores each
   * argument unchanged. Timeouts and the base delay are seconds
   * (`TimeInterval`); `maxRetries` is a Swift `Int`.
   */
  datatype NetworkConfiguration = NetworkConfiguration(
    requestTimeout: real,
    resourceTimeout: real,
    maxRetries: int,
    baseRetryDelay: real)

  /** `.default`, used for chat, model listing and key validation. */
  const Default := NetworkConfiguration(30.0, 300.0, 3, 1.0)

  /** `.transcription`, for the audio upload. */
  const Transcription := NetworkConfiguration(60.0, 600.0, 2, 2.0)

  /** The presets hold the documented values. */
  lemma PresetValues()
    ensures Default.requestTimeout == 30.0 && Default.resourceTimeout == 300.0
    ensures Default.maxRetries == 3 && Default.baseRetryDelay == 1.0
    ensures Transcription.requestTimeout == 60.0 && Transcription.resourceTimeout == 600.0
    ensures Transcription.maxRetries == 2 && Transcription.baseRetryDelay == 2.0
  {
  }

  /** Both presets admit the retry loop: its attempt range `0...maxRetries` is non-empty. */
  lemma PresetsAdmitRetryLoop()
    ensures Default.maxRetries >= 0 && Transcription.maxRetries >= 0
  {
  }

  /** The upload preset waits longer, retries less often and backs off further than the default. */
  lemma TranscriptionPresetSuitsLargeUploads()
    ensures Transcription.requestTimeout > Default.requestTimeout
    ensures Transcription.resourceTimeout > Default.resourceTimeout
    ensures Transcription.maxRetries < Default.maxRetries
    ensures Transcription.baseRetryDelay > Default.baseRetryDelay
  {
  }
}
