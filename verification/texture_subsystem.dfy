/**
 A model of the texture subsystem: the decision that turns a decoded image's channel count and
 the gamma-correction flag into the formats handed to OpenGL, and the set of texture ids the
 subsystem tracks so that it can delete them at shutdown.

 Image decoding and texture-name generation are oracles: the caller supplies what the decoder
 reported for the file (`None` when it failed) and the name the driver generated.
 */
module TextureSubsystem {
  import opened Wrappers

  /** A GLuint texture name. */
  type TexId = x: nat | x < 0x1_0000_0000

  /** The OpenGL pixel formats the subsystem uses. */
  datatype GlFormat = Red | Rgb | Rgba | Srgb | SrgbAlpha {

    /** The number of components a pixel of this format has. */
    function Components(): nat {
      match this
      case Red => 1
      case Rgb => 3
      case Srgb => 3
      case Rgba => 4
      case SrgbAlpha => 4
    }

    /** Whether the format stores colour in the sRGB encoding. */
    predicate IsSrgb() {
      Srgb? || SrgbAlpha?
    }
  }

  /** The internal format and the pixel data format passed to glTexImage2D. */
  datatype Formats = Formats(internal: GlFormat, data: GlFormat)

  /** What the image decoder reports about a file it decoded. */
  datatype Image = Image(width: int, height: int, channels: int)

  /** The decision table of loadTexture. One and three and four channels are supported; the
      internal format is the sRGB variant exactly when gamma correction is asked for and the
      image has colour channels; the data format is never sRGB. */
  function SelectFormats(channels: int, useGammaCorrection: bool): (r: Option<Formats>)
    ensures r.Some? <==> channels == 1 || channels == 3 || channels == 4
    ensures r.Some? ==> r.value.internal.Components() == channels && r.value.data.Components() == channels
    ensures r.Some? ==> (r.value.internal.IsSrgb() <==> useGammaCorrection && channels != 1)
    ensures r.Some? ==> !r.value.data.IsSrgb()
  {
    if channels == 3 then Some(Formats(if useGammaCorrection then Srgb else Rgb, Rgb))
    else if channels == 4 then Some(Formats(if useGammaCorrection then SrgbAlpha else Rgba, Rgba))
    else if channels == 1 then Some(Formats(Red, Red))
    else None
  }

  /** The properties SelectFormats promises leave no choice: any pair of formats with them is
      the one it selects. */
  lemma FormatsDetermined(channels: int, useGammaCorrection: bool, f: Formats)
    requires f.internal.Components() == channels && f.data.Components() == channels
    requires f.internal.IsSrgb() <==> useGammaCorrection && channels != 1
    requires !f.data.IsSrgb()
    ensures SelectFormats(channels, useGammaCorrection) == Some(f)
  {
  }

  /** The driver's view: texture names generated and not yet deleted, and the active unit. */
  datatype Gl = Gl(names: set<TexId>, activeUnit: int)

  /** The subsystem's state: the ids of the textures it loaded. */
  datatype Subsystem = Subsystem(loaded: set<TexId>)

  /** Every tracked id names a texture the driver still holds. */
  predicate Valid(s: Subsystem, gl: Gl) {
    s.loaded <= gl.names
  }

  /** glDeleteTextures for one name; names it does not hold are ignored. */
  function DeleteTexture(gl: Gl, id: TexId): (r: Gl)
    ensures r.names == gl.names - {id} && r.activeUnit == gl.activeUnit
  {
    gl.(names := gl.names - {id})
  }

  /** The arguments glTexImage2D receives. */
  datatype Upload = Upload(id: TexId, formats: Formats, width: int, height: int)

  /** Everything loadTexture leaves behind: its return value, the `outTexId` reference, the
      subsystem, the driver state and the upload it made, if any. */
  datatype LoadResult = LoadResult(ok: bool, outTexId: TexId, sub: Subsystem, gl: Gl, upload: Option<Upload>)

  /** loadTexture. `decoded` is what the decoder reported for the file and `generated` the name
      glGenTextures returns, which the driver does not hold yet. */
  function LoadTexture(
    s: Subsystem, gl: Gl, outTexId: TexId, textureUnit: int, useGammaCorrection: bool,
    decoded: Option<Image>, generated: TexId): (r: LoadResult)
    requires generated !in gl.names
    ensures decoded.None? ==> !r.ok && r.outTexId == outTexId && r.sub == s && r.gl == gl && r.upload.None?
    ensures r.ok <==> decoded.Some? && SelectFormats(decoded.value.channels, useGammaCorrection).Some?
    ensures !r.ok ==> r.outTexId == outTexId && r.sub == s && r.gl.names == gl.names && r.upload.None?
    ensures r.ok ==> r.outTexId == generated && r.sub.loaded == s.loaded + {generated}
    ensures r.ok ==> r.gl.names == gl.names + {generated}
    ensures r.ok ==> r.upload == Some(Upload(generated, SelectFormats(decoded.value.channels, useGammaCorrection).value,
                                             decoded.value.width, decoded.value.height))
    ensures r.gl.activeUnit == if decoded.Some? && textureUnit >= 0 then textureUnit else gl.activeUnit
    ensures Valid(s, gl) ==> Valid(r.sub, r.gl)
  {
    match decoded
    case None => LoadResult(false, outTexId, s, gl, None)
    case Some(image) =>
      var bound := Gl(gl.names + {generated}, if textureUnit >= 0 then textureUnit else gl.activeUnit);
      match SelectFormats(image.channels, useGammaCorrection)
      case None => LoadResult(false, outTexId, s, DeleteTexture(bound, generated), None)
      case Some(formats) =>
        LoadResult(true, generated, Subsystem(s.loaded + {generated}), bound,
                   Some(Upload(generated, formats, image.width, image.height)))
  }

  /** A successful load adds a texture the subsystem did not track before. */
  lemma LoadGrowsTrackedSet(
    s: Subsystem, gl: Gl, outTexId: TexId, textureUnit: int, useGammaCorrection: bool,
    decoded: Option<Image>, generated: TexId)
    requires generated !in gl.names && Valid(s, gl)
    ensures var r := LoadTexture(s, gl, outTexId, textureUnit, useGammaCorrection, decoded, generated);
            r.ok ==> r.outTexId !in s.loaded && r.outTexId in r.sub.loaded && |r.sub.loaded| == |s.loaded| + 1
  {
  }

  /** shutdown: delete every tracked texture, then forget them all. */
  method Shutdown(s: Subsystem, gl: Gl) returns (s': Subsystem, gl': Gl)
    ensures s'.loaded == {}
    ensures gl'.names == gl.names - s.loaded
    ensures gl'.activeUnit == gl.activeUnit
    ensures Valid(s', gl')
  {
    var remaining := s.loaded;
    gl' := gl;
    while remaining != {}
      invariant remaining <= s.loaded
      invariant gl'.names == gl.names - (s.loaded - remaining)
      invariant gl'.activeUnit == gl.activeUnit
      decreases remaining
    {
      var id :| id in remaining;
      gl' := DeleteTexture(gl', id);
      remaining := remaining - {id};
    }
    s' := Subsystem({});
  }
}
