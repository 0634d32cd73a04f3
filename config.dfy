/**
 * The configuration records and the checks their `__post_init__` hooks run. Each sub-configuration
 * is a value checked by a validator that passes or fails with the exact `ValueError` message;
 * the top-level configuration is an object whose post-initialisation fills empty collections in
 * place and then checks the environment name.
 */
module Config {
  import opened Wrappers
  import opened Text

  // ---------------------------------------------------------------- security

  datatype SecurityConfig = SecurityConfig(
    jwtSecretKey: string,
    jwtExpirationHours: int,
    bcryptRounds: int,
    maxLoginAttempts: int,
    lockoutDurationMinutes: int,
    jwtAlgorithm: string,
    sessionTimeoutMinutes: int)

  /** The fields after the secret, at their declared defaults. */
  function DefaultSecurity(jwtSecretKey: string): SecurityConfig
  {
    SecurityConfig(jwtSecretKey, 24, 12, 5, 15, "HS256", 60)
  }

  const BcryptRoundsMessage := "BCRYPT_ROUNDS must be between 10 and 16"
  const JwtExpirationMessage := "JWT_EXPIRATION_HOURS must be between 1 and 168"
  const MaxLoginAttemptsMessage := "MAX_LOGIN_ATTEMPTS must be between 1 and 10"

  /**
   * Accepts exactly bcrypt rounds in 10..16, token lifetimes of 1..168 hours and 1..10 login
   * attempts; when several are wrong, the first of those checks names the error.
   */
  function ValidateSecurity(c: SecurityConfig): (r: Outcome<string>)
    ensures r.Pass? <==> 10 <= c.bcryptRounds <= 16 && 1 <= c.jwtExpirationHours <= 168 && 1 <= c.maxLoginAttempts <= 10
    ensures !(10 <= c.bcryptRounds <= 16) ==> r == Fail(BcryptRoundsMessage)
    ensures 10 <= c.bcryptRounds <= 16 && !(1 <= c.jwtExpirationHours <= 168) ==> r == Fail(JwtExpirationMessage)
  {
    if c.bcryptRounds < 10 || c.bcryptRounds > 16 then Fail(BcryptRoundsMessage)
    else if c.jwtExpirationHours < 1 || c.jwtExpirationHours > 168 then Fail(JwtExpirationMessage)
    else if c.maxLoginAttempts < 1 || c.maxLoginAttempts > 10 then Fail(MaxLoginAttemptsMessage)
    else Pass
  }

  // ---------------------------------------------------------------- resources

  datatype ResourceConfig = ResourceConfig(
    maxConcurrentJobs: int,
    cpuLimitPercent: real,
    memoryLimitPercent: real,
    diskLimitPercent: real,
    jobTimeoutSeconds: int,
    retryAttempts: int,
    minMemoryGb: real,
    minDiskGb: real,
    maxFileSizeGb: real)

  const DefaultResources := ResourceConfig(2, 80.0, 80.0, 90.0, 3600, 3, 2.0, 5.0, 10.0)

  const CpuLimitMessage := "CPU_LIMIT_PERCENT must be between 1 and 100"
  const MemoryLimitMessage := "MEMORY_LIMIT_PERCENT must be between 1 and 100"
  const DiskLimitMessage := "DISK_LIMIT_PERCENT must be between 1 and 100"
  const MaxConcurrentJobsMessage := "MAX_CONCURRENT_JOBS must be between 1 and 20"

  /** Accepts exactly CPU, memory and disk limits within 1..100 percent and 1..20 concurrent jobs. */
  function ValidateResources(c: ResourceConfig): (r: Outcome<string>)
    ensures r.Pass? <==>
      && 1.0 <= c.cpuLimitPercent <= 100.0 && 1.0 <= c.memoryLimitPercent <= 100.0
      && 1.0 <= c.diskLimitPercent <= 100.0 && 1 <= c.maxConcurrentJobs <= 20
    ensures !(1.0 <= c.cpuLimitPercent <= 100.0) ==> r == Fail(CpuLimitMessage)
  {
    if c.cpuLimitPercent < 1.0 || c.cpuLimitPercent > 100.0 then Fail(CpuLimitMessage)
    else if c.memoryLimitPercent < 1.0 || c.memoryLimitPercent > 100.0 then Fail(MemoryLimitMessage)
    else if c.diskLimitPercent < 1.0 || c.diskLimitPercent > 100.0 then Fail(DiskLimitMessage)
    else if c.maxConcurrentJobs < 1 || c.maxConcurrentJobs > 20 then Fail(MaxConcurrentJobsMessage)
    else Pass
  }

  // ---------------------------------------------------------------- storage

  datatype StorageConfig = StorageConfig(
    databasePath: string,
    logsDirectory: string,
    tempDirectory: string,
    uploadDirectory: string,
    backupDirectory: string,
    maxLogSizeMb: int,
    maxLogFiles: int)

  const DefaultStorage := StorageConfig(
    "/app/data/handbrake2resilio.db", "/app/logs", "/app/temp", "/app/uploads", "/app/backups", 100, 10)

  /** The five paths, with their names, in the order they are checked. */
  function StoragePaths(c: StorageConfig): seq<(string, string)>
  {
    [ ("database_path", c.databasePath),
      ("logs_directory", c.logsDirectory),
      ("temp_directory", c.tempDirectory),
      ("upload_directory", c.uploadDirectory),
      ("backup_directory", c.backupDirectory) ]
  }

  /** The name of the first path in `paths` whose value is empty, if any. */
  function FirstEmpty(paths: seq<(string, string)>): (r: Option<string>)
    ensures r.None? <==> forall i :: 0 <= i < |paths| ==> paths[i].1 != ""
    ensures r.Some? ==> exists i :: 0 <= i < |paths| && paths[i] == (r.value, "")
                          && forall j :: 0 <= j < i ==> paths[j].1 != ""
  {
    if paths == [] then None
    else if paths[0].1 == "" then Some(paths[0].0)
    else
      var rest := FirstEmpty(paths[1..]);
      if rest.Some? then
        ghost var i :| 0 <= i < |paths| - 1 && paths[1..][i] == (rest.value, "")
                        && forall j :: 0 <= j < i ==> paths[1..][j].1 != "";
        assert paths[i + 1] == (rest.value, "");
        assert forall j :: 0 <= j < i + 1 ==> paths[j].1 != "" by {
          forall j | 0 <= j < i + 1 ensures paths[j].1 != "" {
            if j > 0 { assert paths[j] == paths[1..][j - 1]; }
          }
        }
        rest
      else
        assert forall i :: 0 <= i < |paths| ==> paths[i].1 != "" by {
          forall i | 0 <= i < |paths| ensures paths[i].1 != "" {
            if i > 0 { assert paths[i] == paths[1..][i - 1]; }
          }
        }
        rest
  }

  function EmptyPathMessage(name: string): string { name + " cannot be empty" }

  /** Accepts exactly when none of the five paths is empty; otherwise names the first empty one. */
  function ValidateStorage(c: StorageConfig): (r: Outcome<string>)
    ensures r.Pass? <==> c.databasePath != "" && c.logsDirectory != "" && c.tempDirectory != ""
                         && c.uploadDirectory != "" && c.backupDirectory != ""
    ensures c.databasePath == "" ==> r == Fail(EmptyPathMessage("database_path"))
    ensures c.databasePath != "" && c.logsDirectory == "" ==> r == Fail(EmptyPathMessage("logs_directory"))
    ensures c.databasePath != "" && c.logsDirectory != "" && c.tempDirectory == "" ==> r == Fail(EmptyPathMessage("temp_directory"))
    ensures (c.databasePath != "" && c.logsDirectory != "" && c.tempDirectory != "" && c.uploadDirectory == "")
            ==> r == Fail(EmptyPathMessage("upload_directory"))
    ensures (c.databasePath != "" && c.logsDirectory != "" && c.tempDirectory != "" && c.uploadDirectory != ""
             && c.backupDirectory == "") ==> r == Fail(EmptyPathMessage("backup_directory"))
  {
    var paths := StoragePaths(c);
    assert paths[0].1 == c.databasePath && paths[1].1 == c.logsDirectory && paths[2].1 == c.tempDirectory;
    assert paths[3].1 == c.uploadDirectory && paths[4].1 == c.backupDirectory;
    assert c.databasePath != "" ==> FirstEmpty(paths) == FirstEmpty(paths[1..]);
    assert c.databasePath != "" && c.logsDirectory != "" ==> FirstEmpty(paths[1..]) == FirstEmpty(paths[2..]);
    assert paths[1..][0] == ("logs_directory", c.logsDirectory);
    assert paths[2..][0] == ("temp_directory", c.tempDirectory);
    assert c.databasePath != "" && c.logsDirectory != "" && c.tempDirectory != "" ==>
      FirstEmpty(paths[2..]) == FirstEmpty(paths[3..]);
    assert c.databasePath != "" && c.logsDirectory != "" && c.tempDirectory != "" && c.uploadDirectory != "" ==>
      FirstEmpty(paths[3..]) == FirstEmpty(paths[4..]);
    assert paths[3..][0] == ("upload_directory", c.uploadDirectory);
    assert paths[4..][0] == ("backup_directory", c.backupDirectory);
    match FirstEmpty(paths)
    case None => Pass
    case Some(name) => Fail(EmptyPathMessage(name))
  }

  // ---------------------------------------------------------------- network

  datatype NetworkConfig = NetworkConfig(
    host: string,
    port: int,
    corsOrigins: seq<string>,
    maxContentLength: int,
    rateLimitRequests: int,
    rateLimitWindow: int,
    websocketPingInterval: int,
    websocketPingTimeout: int)

  const DefaultNetwork := NetworkConfig("0.0.0.0", 8080, [], 16 * 1024 * 1024, 100, 3600, 25, 10)

  const PortMessage := "PORT must be between 1024 and 65535"
  const MaxContentLengthMessage := "MAX_CONTENT_LENGTH must be at least 1MB"

  predicate UnprivilegedPort(p: int) { 1024 <= p <= 65535 }

  /** Accepts exactly an unprivileged port and a request size limit of at least 1 MiB. */
  function ValidateNetwork(c: NetworkConfig): (r: Outcome<string>)
    ensures r.Pass? <==> UnprivilegedPort(c.port) && c.maxContentLength >= 1048576
    ensures !UnprivilegedPort(c.port) ==> r == Fail(PortMessage)
  {
    if c.port < 1024 || c.port > 65535 then Fail(PortMessage)
    else if c.maxContentLength < 1024 * 1024 then Fail(MaxContentLengthMessage)
    else Pass
  }

  // ---------------------------------------------------------------- video

  datatype QualityPreset = QualityPreset(quality: int, resolution: string, videoBitrate: int)

  datatype VideoConfig = VideoConfig(
    defaultQuality: int,
    defaultResolution: string,
    defaultVideoBitrate: int,
    defaultAudioBitrate: int,
    supportedFormats: seq<string>,
    qualityPresets: map<string, QualityPreset>,
    maxDurationHours: int)

  const DefaultVideo := VideoConfig(23, "720x480", 1000, 96, [], map[], 24)

  const QualityMessage := "DEFAULT_QUALITY must be between 0 and 51"
  const VideoBitrateMessage := "DEFAULT_VIDEO_BITRATE must be between 100 and 10000"
  const AudioBitrateMessage := "DEFAULT_AUDIO_BITRATE must be between 32 and 320"
  const MaxDurationMessage := "MAX_DURATION_HOURS must be between 1 and 168 (1 week)"
  /** Raised when the resolution is empty or has no `x`. */
  const ResolutionShapeMessage := "DEFAULT_RESOLUTION must be in format WIDTHxHEIGHT (e.g., 1920x1080)"
  /** Raised for every other bad resolution, including dimensions out of range. */
  const ResolutionFormatMessage := "DEFAULT_RESOLUTION must be in format WIDTHxHEIGHT with valid integers"

  predicate DimensionsInRange(w: int, h: int) { 320 <= w <= 7680 && 240 <= h <= 4320 }

  /**
   * The resolution check: the text must contain `x`, split on `x` into exactly two pieces that
   * `int()` accepts, and give a width in 320..7680 and a height in 240..4320. The range check raises
   * inside the `try` whose handler turns every `ValueError` into the generic format message.
   */
  function ParseResolution(s: string): (r: Result<(int, int), string>)
    ensures s == "" || 'x' !in s ==> r == Err(ResolutionShapeMessage)
    ensures s != "" && 'x' in s && r.Err? ==> r == Err(ResolutionFormatMessage)
    ensures r.Ok? ==> DimensionsInRange(r.value.0, r.value.1)
  {
    if s == "" || 'x' !in s then Err(ResolutionShapeMessage)
    else
      var parts := Split(s, 'x');
      if |parts| != 2 then Err(ResolutionFormatMessage)
      else
        match (ParseInt(parts[0]), ParseInt(parts[1]))
        case (Some(w), Some(h)) =>
          if w < 320 || w > 7680 || h < 240 || h > 4320 then Err(ResolutionFormatMessage)
          else Ok((w, h))
        case _ => Err(ResolutionFormatMessage)
  }

  /**
   * An accepted resolution is exactly one `x` between two pieces that read as the width and the
   * height.
   */
  lemma ParseResolutionSound(s: string, w: int, h: int)
    requires ParseResolution(s) == Ok((w, h))
    ensures exists a, b :: s == a + "x" + b && 'x' !in a && 'x' !in b
                           && ParseInt(a) == Some(w) && ParseInt(b) == Some(h)
  {
    var parts := Split(s, 'x');
    SplitTwoPieces(s, 'x');
    assert s == parts[0] + "x" + parts[1];
  }

  /** Text with an `x` that splits into two pieces is judged by what `int()` makes of the pieces. */
  lemma ResolutionOfPieces(s: string, a: string, b: string)
    requires s != "" && 'x' in s && Split(s, 'x') == [a, b]
    ensures ParseInt(a).Some? && ParseInt(b).Some? && DimensionsInRange(ParseInt(a).value, ParseInt(b).value)
            ==> ParseResolution(s) == Ok((ParseInt(a).value, ParseInt(b).value))
    ensures !(ParseInt(a).Some? && ParseInt(b).Some? && DimensionsInRange(ParseInt(a).value, ParseInt(b).value))
            ==> ParseResolution(s) == Err(ResolutionFormatMessage)
  {
  }

  /** One `x` between two pieces that hold none. */
  lemma JoinedPieces(a: string, b: string)
    requires 'x' !in a && 'x' !in b
    ensures a + "x" + b != "" && 'x' in a + "x" + b && Split(a + "x" + b, 'x') == [a, b]
  {
    SplitOnce(a, 'x', b);
    assert a + "x" + b == a + ['x'] + b;
    assert (a + "x" + b)[|a|] == 'x';
  }

  /** Conversely, any such text with dimensions in range is accepted with those dimensions. */
  lemma ParseResolutionComplete(a: string, b: string, w: int, h: int)
    requires 'x' !in a && 'x' !in b
    requires ParseInt(a) == Some(w) && ParseInt(b) == Some(h)
    requires DimensionsInRange(w, h)
    ensures ParseResolution(a + "x" + b) == Ok((w, h))
  {
    JoinedPieces(a, b);
    ResolutionOfPieces(a + "x" + b, a, b);
  }

  /** A decimal numeral holds no `x`. */
  lemma DecimalHasNoX(n: nat)
    ensures 'x' !in NatToString(n)
  {
    NatToStringDigits(n);
    var a := NatToString(n);
    forall k | 0 <= k < |a| ensures a[k] != 'x' { assert IsDigit(a[k]); }
  }

  /** Dimensions written as `WIDTHxHEIGHT` in decimal read back as the same dimensions. */
  lemma ResolutionRoundTrip(s: string, w: nat, h: nat)
    requires DimensionsInRange(w, h) && s == NatToString(w) + "x" + NatToString(h)
    ensures ParseResolution(s) == Ok((w, h))
  {
    ParseIntOfNatToString(w);
    ParseIntOfNatToString(h);
    DecimalHasNoX(w);
    DecimalHasNoX(h);
    ParseResolutionComplete(NatToString(w), NatToString(h), w, h);
  }

  /** Dimensions out of range, written in decimal, get the format message rather than a range message. */
  lemma DecimalOutOfRangeRejected(s: string, w: nat, h: nat)
    requires !DimensionsInRange(w, h) && s == NatToString(w) + "x" + NatToString(h)
    ensures ParseResolution(s) == Err(ResolutionFormatMessage)
  {
    ParseIntOfNatToString(w);
    ParseIntOfNatToString(h);
    DecimalHasNoX(w);
    DecimalHasNoX(h);
    OutOfRangeRejected(NatToString(w), NatToString(h), w, h);
  }

  /** Two `int()`-readable pieces around one `x` whose dimensions are out of range get the format message. */
  lemma OutOfRangeRejected(a: string, b: string, w: int, h: int)
    requires 'x' !in a && 'x' !in b
    requires ParseInt(a) == Some(w) && ParseInt(b) == Some(h)
    requires !DimensionsInRange(w, h)
    ensures ParseResolution(a + "x" + b) == Err(ResolutionFormatMessage)
  {
    JoinedPieces(a, b);
    ResolutionOfPieces(a + "x" + b, a, b);
  }

  /** The default resolution passes. */
  lemma DefaultResolutionAccepted()
    ensures ParseResolution("720x480") == Ok((720, 480))
  {
    assert NatToString(720) == "720";
    assert NatToString(480) == "480";
    ResolutionRoundTrip("720x480", 720, 480);
  }

  /** A well-formed resolution below the range gets the format message, not a range message. */
  lemma OutOfRangeReportsFormatError()
    ensures ParseResolution("100x100") == Err(ResolutionFormatMessage)
  {
    assert NatToString(100) == "100";
    DecimalOutOfRangeRejected("100x100", 100, 100);
  }

  /**
   * Accepts exactly quality 0..51, video bitrate 100..10000, audio bitrate 32..320, a maximum
   * duration of 1..168 hours and a resolution `ParseResolution` accepts, checked in that order.
   */
  function ValidateVideo(c: VideoConfig): (r: Outcome<string>)
    ensures r.Pass? <==>
      && 0 <= c.defaultQuality <= 51 && 100 <= c.defaultVideoBitrate <= 10000
      && 32 <= c.defaultAudioBitrate <= 320 && 1 <= c.maxDurationHours <= 168
      && ParseResolution(c.defaultResolution).Ok?
    ensures !(0 <= c.defaultQuality <= 51) ==> r == Fail(QualityMessage)
  {
    if c.defaultQuality < 0 || c.defaultQuality > 51 then Fail(QualityMessage)
    else if c.defaultVideoBitrate < 100 || c.defaultVideoBitrate > 10000 then Fail(VideoBitrateMessage)
    else if c.defaultAudioBitrate < 32 || c.defaultAudioBitrate > 320 then Fail(AudioBitrateMessage)
    else if c.maxDurationHours < 1 || c.maxDurationHours > 168 then Fail(MaxDurationMessage)
    else match ParseResolution(c.defaultResolution)
      case Ok(_) => Pass
      case Err(message) => Fail(message)
  }

  // ---------------------------------------------------------------- monitoring

  datatype MonitoringConfig = MonitoringConfig(
    enableMetrics: bool,
    metricsPort: int,
    logLevel: string,
    enableHealthChecks: bool,
    healthCheckInterval: int,
    enableStructuredLogging: bool,
    logFormat: string,
    enableRequestLogging: bool,
    enablePerformanceMonitoring: bool)

  const DefaultMonitoring := MonitoringConfig(true, 9090, "INFO", true, 30, true, "json", true, true)

  const ValidLogLevels := ["DEBUG", "INFO", "WARNING", "ERROR", "CRITICAL"]
  const LogLevelMessage := "LOG_LEVEL must be one of ['DEBUG', 'INFO', 'WARNING', 'ERROR', 'CRITICAL']"
  const MetricsPortMessage := "METRICS_PORT must be between 1024 and 65535"

  /** Accepts exactly one of the five log level names (case matters) and an unprivileged metrics port. */
  function ValidateMonitoring(c: MonitoringConfig): (r: Outcome<string>)
    ensures r.Pass? <==> c.logLevel in {"DEBUG", "INFO", "WARNING", "ERROR", "CRITICAL"} && UnprivilegedPort(c.metricsPort)
    ensures c.logLevel !in ValidLogLevels ==> r == Fail(LogLevelMessage)
  {
    if c.logLevel !in ValidLogLevels then Fail(LogLevelMessage)
    else if c.metricsPort < 1024 || c.metricsPort > 65535 then Fail(MetricsPortMessage)
    else Pass
  }

  /** Every sub-configuration at its declared defaults passes its own check. */
  lemma DefaultsValid(secret: string)
    ensures ValidateSecurity(DefaultSecurity(secret)) == Pass
    ensures ValidateResources(DefaultResources) == Pass
    ensures ValidateStorage(DefaultStorage) == Pass
    ensures ValidateNetwork(DefaultNetwork) == Pass
    ensures ValidateVideo(DefaultVideo) == Pass
    ensures ValidateMonitoring(DefaultMonitoring) == Pass
  {
    DefaultResolutionAccepted();
  }

  // ---------------------------------------------------------------- top level

  const DefaultCorsOrigins := [
    "http://localhost:3000", "http://localhost:3001", "http://localhost:3002",
    "http://192.168.10.18:3000", "http://192.168.10.18:3001", "http://192.168.10.18:3002"]

  const DefaultSupportedFormats := [".mp4", ".mkv", ".avi", ".mov", ".wmv", ".flv", ".webm"]

  const DefaultQualityPresets := map[
    "fast" := QualityPreset(28, "720x480", 800),
    "standard" := QualityPreset(23, "1280x720", 1500),
    "high" := QualityPreset(20, "1920x1080", 2500),
    "ultra" := QualityPreset(18, "1920x1080", 4000)]

  const ValidEnvironments := ["development", "staging", "production"]
  const EnvironmentMessage := "ENVIRONMENT must be one of ['development', 'staging', 'production']"

  /** The network section after post-initialisation: an empty origin list is replaced by the defaults. */
  function FilledNetwork(n: NetworkConfig): (m: NetworkConfig)
    ensures m.corsOrigins != []
    ensures n.corsOrigins != [] ==> m == n
    ensures n.corsOrigins == [] ==> m == n.(corsOrigins := DefaultCorsOrigins) && |m.corsOrigins| == 6
  {
    if n.corsOrigins == [] then n.(corsOrigins := DefaultCorsOrigins) else n
  }

  /** The video section after post-initialisation: empty formats and presets are replaced by the defaults. */
  function FilledVideo(v: VideoConfig): (w: VideoConfig)
    ensures w.supportedFormats != [] && w.qualityPresets != map[]
    ensures v.supportedFormats != [] ==> w.supportedFormats == v.supportedFormats
    ensures v.supportedFormats == [] ==> w.supportedFormats == DefaultSupportedFormats && |w.supportedFormats| == 7
    ensures v.qualityPresets != map[] ==> w.qualityPresets == v.qualityPresets
    ensures v.qualityPresets == map[] ==> w.qualityPresets == DefaultQualityPresets && |w.qualityPresets| == 4
    ensures w.(supportedFormats := v.supportedFormats, qualityPresets := v.qualityPresets) == v
  {
    var formats := if v.supportedFormats == [] then DefaultSupportedFormats else v.supportedFormats;
    var presets := if v.qualityPresets == map[] then DefaultQualityPresets else v.qualityPresets;
    assert "fast" in DefaultQualityPresets;
    assert DefaultQualityPresets.Keys == {"fast", "standard", "high", "ultra"};
    v.(supportedFormats := formats, qualityPresets := presets)
  }

  /** Post-initialising an already post-initialised configuration changes nothing. */
  lemma FillingIsIdempotent(n: NetworkConfig, v: VideoConfig)
    ensures FilledNetwork(FilledNetwork(n)) == FilledNetwork(n)
    ensures FilledVideo(FilledVideo(v)) == FilledVideo(v)
  {
  }

  /** A configuration value as it appears in the logging dictionary. */
  datatype ConfigValue = IntValue(i: int) | StringValue(s: string)

  /**
   * The security section of `to_dict`: every security setting except the JWT secret.
   */
  function SecuritySection(c: SecurityConfig): (d: map<string, ConfigValue>)
    ensures "jwt_secret_key" !in d
    ensures "jwt_algorithm" in d && d["jwt_algorithm"] == StringValue(c.jwtAlgorithm)
    ensures forall k :: k in d ==> d[k] != StringValue(c.jwtSecretKey) || c.jwtSecretKey == c.jwtAlgorithm
  {
    map[
      "jwt_expiration_hours" := IntValue(c.jwtExpirationHours),
      "bcrypt_rounds" := IntValue(c.bcryptRounds),
      "max_login_attempts" := IntValue(c.maxLoginAttempts),
      "lockout_duration_minutes" := IntValue(c.lockoutDurationMinutes),
      "jwt_algorithm" := StringValue(c.jwtAlgorithm),
      "session_timeout_minutes" := IntValue(c.sessionTimeoutMinutes)]
  }

  /** The environment a configuration gets when none is given. */
  const DefaultEnvironment := "production"

  /** The top-level configuration; its network and video sections are reassigned by post-initialisation. */
  class AppConfig {
    const security: SecurityConfig
    const resources: ResourceConfig
    const storage: StorageConfig
    var network: NetworkConfig
    var video: VideoConfig
    const monitoring: MonitoringConfig
    const environment: string

    /** The dataclass's generated initialiser, before its post-initialisation hook runs. */
    constructor (security: SecurityConfig, resources: ResourceConfig, storage: StorageConfig,
                 network: NetworkConfig, video: VideoConfig, monitoring: MonitoringConfig,
                 environment: string := DefaultEnvironment)
      ensures this.security == security && this.resources == resources && this.storage == storage
      ensures this.network == network && this.video == video
      ensures this.monitoring == monitoring && this.environment == environment
    {
      this.security := security;
      this.resources := resources;
      this.storage := storage;
      this.network := network;
      this.video := video;
      this.monitoring := monitoring;
      this.environment := environment;
    }

    /**
     * `Config.__post_init__`: fills the empty collections first, then fails unless the environment
     * is one of the three known names (the filled collections stay filled either way).
     */
    method PostInit() returns (r: Outcome<string>)
      modifies this
      ensures network == FilledNetwork(old(network)) && video == FilledVideo(old(video))
      ensures r.Pass? <==> environment in ValidEnvironments
      ensures r.Fail? ==> r == Fail(EnvironmentMessage)
    {
      if network.corsOrigins == [] {
        network := network.(corsOrigins := DefaultCorsOrigins);
      }
      if video.supportedFormats == [] {
        video := video.(supportedFormats := DefaultSupportedFormats);
      }
      if video.qualityPresets == map[] {
        video := video.(qualityPresets := DefaultQualityPresets);
      }
      if environment !in ValidEnvironments {
        return Fail(EnvironmentMessage);
      }
      r := Pass;
    }
  }

  /** `Config(...)`: the initialiser followed by post-initialisation; a failed hook raises. */
  method NewConfig(security: SecurityConfig, resources: ResourceConfig, storage: StorageConfig,
                   network: NetworkConfig, video: VideoConfig, monitoring: MonitoringConfig,
                   environment: string := DefaultEnvironment)
    returns (r: Result<AppConfig, string>)
    ensures r.Ok? <==> environment in ValidEnvironments
    ensures environment == DefaultEnvironment ==> r.Ok?
    ensures r.Err? ==> r.error == EnvironmentMessage
    ensures r.Ok? ==> fresh(r.value) && r.value.network == FilledNetwork(network) && r.value.video == FilledVideo(video)
  {
    var c := new AppConfig(security, resources, storage, network, video, monitoring, environment);
    var outcome := c.PostInit();
    if outcome.Fail? {
      return Err(outcome.error);
    }
    r := Ok(c);
  }
}
