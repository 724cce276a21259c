/**
 Day/night choice of the farm scene (index.js, updateSceneBackground).

 The source reads the hour from the wall clock; here the hour is a parameter.
 The result is the background texture to load and the colour the ambient
 light is set to.
 */
module Background {

  const DayTexture: string := "./assets/farm2.jpg"
  const NightTexture: string := "./assets/farm3.jpg"

  /** Ambient light colours as 24-bit RGB values. */
  const White: nat := 0xffffff
  const Black: nat := 0x000000

  datatype Backdrop = Backdrop(texturePath: string, ambientColor: nat)

  /** The daytime test of the source: the hour lies in [6, 19). */
  predicate IsDayTime(hour: int)
  {
    hour >= 6 && hour < 19
  }

  /** The backdrop updateSceneBackground selects for `hour`. */
  function SceneBackdrop(hour: int): (b: Backdrop)
    ensures b.texturePath == DayTexture <==> 6 <= hour < 19
    ensures b.texturePath == NightTexture <==> !(6 <= hour < 19)
    ensures b.ambientColor == White <==> 6 <= hour < 19
    ensures b.ambientColor == Black <==> !(6 <= hour < 19)
  {
    var day := IsDayTime(hour);
    Backdrop(if day then DayTexture else NightTexture, if day then White else Black)
  }

  /** Texture and light always agree: a day texture is never lit black and vice versa. */
  lemma TextureMatchesLight(hour: int)
    ensures SceneBackdrop(hour).texturePath == DayTexture <==> SceneBackdrop(hour).ambientColor == White
  {
  }

  /** Two hours give the same backdrop exactly when they agree on the daytime test. */
  lemma BackdropDependsOnlyOnDayTime(h1: int, h2: int)
    ensures SceneBackdrop(h1) == SceneBackdrop(h2) <==> (IsDayTime(h1) <==> IsDayTime(h2))
  {
    assert DayTexture[13] != NightTexture[13];
  }

  /** At 10 o'clock the scene is day with a white light; at 22 o'clock it is night with a black one. */
  lemma MorningAndEvening()
    ensures SceneBackdrop(10) == Backdrop(DayTexture, White)
    ensures SceneBackdrop(22) == Backdrop(NightTexture, Black)
  {
  }
}
