/**
 * CoreDataSchemaVersionedEntityProtocol.swift: an entity that records the
 * schema version and the data version it was last written with. Both version
 * types are modelled as integers.
 */
module SchemaVersionedEntity {

  datatype Versions = Versions(schemaVersion: int, version: int)

  /**
   * `isSchemaVersionOutdated()`: exactly when `updateVersion(to:)` would rewrite
   * the schema version, whatever the target version.
   */
  predicate IsSchemaVersionOutdated(s: Versions, currentSchemaVersion: int): (r: bool)
    ensures forall v :: r <==> UpdatedVersions(s, currentSchemaVersion, v).schemaVersion != s.schemaVersion
  {
    s.schemaVersion != currentSchemaVersion
  }

  /**
   * `isVersionOutdated(againstVersion:)`: exactly when `updateVersion(to:)` to
   * that version would change the stored versions.
   */
  predicate IsVersionOutdated(s: Versions, currentSchemaVersion: int, v: int): (r: bool)
    ensures r <==> UpdatedVersions(s, currentSchemaVersion, v) != s
  {
    if IsSchemaVersionOutdated(s, currentSchemaVersion) then true else s.version < v
  }

  /** The versions after `updateVersion(to:)`. */
  function UpdatedVersions(s: Versions, currentSchemaVersion: int, v: int): (r: Versions)
    ensures r.version >= s.version && r.version >= v
    ensures r.version == s.version || r.version == v
    ensures r.schemaVersion == currentSchemaVersion
  {
    var version := if s.version < v then v else s.version;
    // the schema check of `isSchemaVersionOutdated()`, written out
    var schemaVersion := if s.schemaVersion != currentSchemaVersion then currentSchemaVersion else s.schemaVersion;
    Versions(schemaVersion, version)
  }

  /**
   * After `updateVersion(to: v)` neither `v` nor any older version is outdated,
   * and a second `updateVersion(to: v)` changes nothing.
   */
  lemma UpdateVersionSettles(s: Versions, currentSchemaVersion: int, v: int, w: int)
    requires w <= v
    ensures !IsVersionOutdated(UpdatedVersions(s, currentSchemaVersion, v), currentSchemaVersion, w)
    ensures UpdatedVersions(UpdatedVersions(s, currentSchemaVersion, v), currentSchemaVersion, v) ==
            UpdatedVersions(s, currentSchemaVersion, v)
  {
  }

  /** Updating never lowers the version, and updates to `v` then `w` agree with one update to the larger. */
  lemma UpdateVersionMonotone(s: Versions, currentSchemaVersion: int, v: int, w: int)
    ensures UpdatedVersions(s, currentSchemaVersion, v).version >= s.version
    ensures UpdatedVersions(UpdatedVersions(s, currentSchemaVersion, v), currentSchemaVersion, w) ==
            UpdatedVersions(s, currentSchemaVersion, if v < w then w else v)
  {
  }

  class VersionedEntity {
    var schemaVersionValue: int
    var versionValue: int
    /** `Self.currentSchemaVersion`. */
    const currentSchemaVersion: int

    constructor(schemaVersionValue: int, versionValue: int, currentSchemaVersion: int)
      ensures this.schemaVersionValue == schemaVersionValue && this.versionValue == versionValue
      ensures this.currentSchemaVersion == currentSchemaVersion
    {
      this.schemaVersionValue := schemaVersionValue;
      this.versionValue := versionValue;
      this.currentSchemaVersion := currentSchemaVersion;
    }

    function State(): Versions
      reads this
    {
      Versions(schemaVersionValue, versionValue)
    }

    /** `updateVersion(to:)`. */
    method UpdateVersion(v: int)
      modifies this
      ensures State() == UpdatedVersions(old(State()), currentSchemaVersion, v)
    {
      if versionValue < v {
        versionValue := v;
      }
      if IsSchemaVersionOutdated(State(), currentSchemaVersion) {
        schemaVersionValue := currentSchemaVersion;
      }
    }
  }
}
