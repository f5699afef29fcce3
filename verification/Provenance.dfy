/** The provenance a frame bundle's manifest records beside its frames, and its checks. */
module Provenance {
  import opened Basics

  const DESCRIPTIONS_ID := "sampled_frames"
  const ALIGNED := "aligned with the frozen sampling metadata"
  const NO_IDENTITY := "not claim byte identity with the historical visual input"

  /** A finite double, exactly, in units of 2^-1074; what JSON prints and reads back without loss. */
  type Double = int

  datatype Sampling = Sampling(scheme: string, frameCount: int, maxDimension: int, quality: int, optimize: bool)

  datatype Descriptions = Descriptions(representationId: string, path: string, sha256: string)

  datatype Source = Source(
    videoId: string,
    videoFilename: string,
    videoSize: int,
    videoSha256: string,
    duration: Double,
    sampling: Sampling,
    descriptions: Descriptions,
    generationSha256: string,
    versions: map<string, Option<string>>)

  predicate Occurs(phrase: string, s: string) {
    exists i :: 0 <= i <= |s| && phrase <= s[i..]
  }

  /** The alignment statement makes both required declarations, in any letter case. */
  predicate StatementOk(lower: string -> string, statement: string) {
    !Blank(statement) && Occurs(ALIGNED, lower(statement)) && Occurs(NO_IDENTITY, lower(statement))
  }

  predicate SamplingOk(s: Sampling, frames: nat) {
    !Blank(s.scheme) && s.frameCount == frames && s.frameCount >= 1 && s.maxDimension >= 1 && 1 <= s.quality <= 100
  }

  /** The source blocks describe the sampled video, with as many frames as the bundle holds. */
  predicate SourceOk(s: Source, frames: nat) {
    && SamplingOk(s.sampling, frames)
    && s.descriptions.representationId == DESCRIPTIONS_ID && !Blank(s.descriptions.path) && IsDigest(s.descriptions.sha256)
    && !Blank(s.videoId) && !Blank(s.videoFilename) && s.videoSize >= 1 && IsDigest(s.videoSha256)
    && s.duration >= 0 && IsDigest(s.generationSha256)
    && forall name :: name in s.versions ==> !Blank(name)
  }

  // ---------- the checks as they are made ----------

  datatype SourceError =
    | BadSampling | BadDescriptions | BadVideo | BadDuration | BadGeneration | BadVersions

  /** What each refusal reports. */
  predicate SourceRefusal(s: Source, frames: nat, e: SourceError) {
    match e
    case BadSampling => !SamplingOk(s.sampling, frames)
    case BadDescriptions =>
      s.descriptions.representationId != DESCRIPTIONS_ID || Blank(s.descriptions.path) || !IsDigest(s.descriptions.sha256)
    case BadVideo => Blank(s.videoId) || Blank(s.videoFilename) || s.videoSize <= 0 || !IsDigest(s.videoSha256)
    case BadDuration => s.duration < 0
    case BadGeneration => !IsDigest(s.generationSha256)
    case BadVersions => exists name :: name in s.versions && Blank(name)
  }

  /** Sampling, descriptions and the video's own fields, one check after the other. */
  method ValidateSource(s: Source, frames: nat) returns (r: Option<SourceError>)
    ensures r.None? <==> SourceOk(s, frames)
    ensures r.Some? ==> SourceRefusal(s, frames, r.value)
  {
    var sampling := s.sampling;
    if Blank(sampling.scheme) || sampling.frameCount < 1 || sampling.frameCount != frames || sampling.maxDimension < 1 {
      return Some(BadSampling);
    }
    if sampling.quality < 1 || sampling.quality > 100 {
      return Some(BadSampling);
    }
    if s.descriptions.representationId != "sampled_frames" {
      return Some(BadDescriptions);
    }
    if Blank(s.videoId) || Blank(s.videoFilename) || s.videoSize < 1 || !IsDigest(s.videoSha256) {
      return Some(BadVideo);
    }
    if s.duration < 0 {
      return Some(BadDuration);
    }
    if Blank(s.descriptions.path) || !IsDigest(s.descriptions.sha256) {
      return Some(BadDescriptions);
    }
    if !IsDigest(s.generationSha256) {
      return Some(BadGeneration);
    }
    if exists name | name in s.versions :: Blank(name) {
      return Some(BadVersions);
    }
    return None;
  }

  /** A statement that makes both declarations, wherever and in whatever case, is accepted; nothing else is. */
  lemma {:induction false} StatementExactly(lower: string -> string, statement: string)
    ensures StatementOk(lower, statement) <==>
      && (exists i :: 0 <= i < |statement| && !IsSpace(statement[i]))
      && (exists a, b :: lower(statement) == a + "aligned with the frozen sampling metadata" + b)
      && (exists a, b :: lower(statement) == a + "not claim byte identity with the historical visual input" + b)
  {
    OccursExactly(ALIGNED, lower(statement));
    OccursExactly(NO_IDENTITY, lower(statement));
  }

  lemma {:induction false} OccursExactly(phrase: string, s: string)
    ensures Occurs(phrase, s) <==> exists a, b :: s == a + phrase + b
  {
    if i :| 0 <= i <= |s| && phrase <= s[i..] {
      var a, b := s[..i], s[i..][|phrase|..];
      assert s[i..] == phrase + b;
      assert s == a + phrase + b;
    }
    if a, b :| s == a + phrase + b {
      assert s[|a|..] == phrase + b;
      assert phrase <= s[|a|..];
    }
  }
}
