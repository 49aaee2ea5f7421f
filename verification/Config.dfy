/** What the configuration file gives, taken as parsed and checked. */
module Config {

  /** One `[Speaker/...]` section. */
  datatype Spec = Spec(
    name: string,
    trCoil: real,
    tauCoil: real,
    trMagnet: real,
    tauMagnet: real,
    tLimit: real,
    tHeadroom: real,
    zNominal: real,
    vsScale: real,
    vsChan: nat,
    pLimit1s: real,
    pLimit60s: real)

  /** The `[Globals]` section. */
  datatype Globals = Globals(
    tAmbient: real,
    tHysteresis: real,
    tWindow: real,
    tReductionMax: real,
    safeReduction: real,
    channels: nat,
    period: nat)

  predicate ValidSpec(s: Spec) {
    && s.trCoil > 0.0 && s.tauCoil > 0.0
    && s.trMagnet > 0.0 && s.tauMagnet > 0.0
    && s.zNominal > 0.0 && s.vsScale > 0.0
    && s.tHeadroom >= 0.0
    && s.pLimit1s >= 0.0 && s.pLimit60s >= 0.0
  }

  predicate ValidGlobals(g: Globals) {
    && g.tWindow > 0.0 && g.tHysteresis >= 0.0
    && g.tReductionMax > 0.0 && g.safeReduction > 0.0
    && g.channels > 0 && g.period > 0
  }

  /** A speaker the daemon starts with: room between the ambient and the working ceiling. */
  predicate Accepted(g: Globals, s: Spec) {
    && ValidGlobals(g) && ValidSpec(s) && s.vsChan < g.channels
    && s.tLimit - s.tHeadroom > g.tAmbient + g.tWindow
  }
}
