/**
 Blur parameters and the two validators that guard them: the library's, run before every blur
 (libwlblur/src/blur_params.c), and the daemon's, run on everything a configuration file says
 (wlblurd/src/config.c). Floating-point fields are reals.
 */
module BlurParams {

  datatype Algorithm = Kawase | Gaussian | Box | Bokeh

  datatype Params = Params(
    algorithm: Algorithm, numPasses: int, radius: real,
    brightness: real, contrast: real, saturation: real, noise: real,
    vibrancy: real, vibrancyDarkness: real,
    tintR: real, tintG: real, tintB: real, tintA: real)

  predicate LibraryValid(p: Params) {
    && 1 <= p.numPasses <= 8
    && 1.0 <= p.radius <= 20.0
    && 0.0 <= p.brightness <= 2.0
    && 0.0 <= p.contrast <= 2.0
    && 0.0 <= p.saturation <= 2.0
    && 0.0 <= p.noise <= 0.1
    && 0.0 <= p.vibrancy <= 2.0
    && 0.0 <= p.vibrancyDarkness <= 1.0
    && 0.0 <= p.tintR <= 1.0
    && 0.0 <= p.tintG <= 1.0
    && 0.0 <= p.tintB <= 1.0
    && 0.0 <= p.tintA <= 1.0
  }

  predicate DaemonValid(p: Params) {
    && p.algorithm == Kawase
    && 1 <= p.numPasses <= 8
    && 1.0 <= p.radius <= 20.0
    && 0.0 <= p.brightness <= 2.0
    && 0.0 <= p.contrast <= 2.0
    && 0.0 <= p.saturation <= 2.0
    && 0.0 <= p.noise <= 1.0
    && 0.0 <= p.vibrancy <= 2.0
  }

  /** The fields no configuration path ever sets are still zero. */
  predicate Untinted(p: Params) {
    p.vibrancyDarkness == p.tintR == p.tintG == p.tintB == p.tintA == 0.0
  }
}
