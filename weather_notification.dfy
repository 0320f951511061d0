/** The weather rule of `WeatherNotificationWorker`, which decides whether the
    hourly job announces good walking weather, and how it compares with the
    route generator's own gate. */
module WeatherNotification {
  import opened Text
  import opened Model
  import RouteGeneration

  /** Mild (10 to 25 degrees, both ends included) and no rain or snow
      anywhere in the lower-cased condition. */
  function IsWeatherSuitableForWalking(w: WeatherInfo): (r: bool)
    ensures r ==> 10.0 <= w.temperature <= 25.0
    ensures r ==> !Contains(Lowercase(w.condition), "rain") && !Contains(Lowercase(w.condition), "snow")
    ensures (10.0 <= w.temperature <= 25.0 && !Contains(Lowercase(w.condition), "rain")
             && !Contains(Lowercase(w.condition), "snow")) ==> r
  {
    10.0 <= w.temperature <= 25.0
    && !Contains(Lowercase(w.condition), "rain")
    && !Contains(Lowercase(w.condition), "snow")
  }

  /** Whatever this rule accepts the route generator accepts too, unless the
      lower-cased condition is exactly "thunderstorm". */
  lemma NotificationImpliesGeneratorGate(w: WeatherInfo)
    requires IsWeatherSuitableForWalking(w)
    requires Lowercase(w.condition) != "thunderstorm"
    ensures RouteGeneration.IsWeatherSuitableForWalking(w)
  {
    var c := Lowercase(w.condition);
    if c == "rain" {
      ContainsSelf(c);
    } else if c == "snow" {
      ContainsSelf(c);
    }
  }

  /** "Light Rain" passes the generator's gate (the word is not exactly
      "rain") but not this rule (it contains "rain"). */
  lemma LightRainDiffers()
    ensures RouteGeneration.IsWeatherSuitableForWalking(WeatherInfo(20.0, "Light Rain", "", true))
    ensures !IsWeatherSuitableForWalking(WeatherInfo(20.0, "Light Rain", "", true))
  {
    assert Lowercase("Light Rain") == "light rain";
    assert OccursAt("light rain", "rain", 6);
    ContainsAt("light rain", "rain", 6);
  }

  /** "thunderstorm" contains neither "rain" nor "snow". */
  lemma ThunderstormHasNoRainOrSnow(t: string)
    requires t == "thunderstorm"
    ensures !Contains(t, "rain")
    ensures !Contains(t, "snow")
  {
    MissingCharNotContained(t, "rain", 'a');
    MissingCharNotContained(t, "snow", 'w');
  }

  /** A thunderstorm in the mild range is fine for this rule and refused by
      the generator. */
  lemma ThunderstormDiffers(w: WeatherInfo)
    requires w.condition == "Thunderstorm" && 10.0 <= w.temperature <= 25.0
    ensures IsWeatherSuitableForWalking(w)
    ensures !RouteGeneration.IsWeatherSuitableForWalking(w)
  {
    var c := Lowercase(w.condition);
    assert c == "thunderstorm";
    ThunderstormHasNoRainOrSnow(c);
  }

  /** "Drizzle" is neither rain nor snow, and the lower end, 10 degrees, is
      included. */
  lemma DrizzleAtTenIsSuitable(w: WeatherInfo)
    requires w.condition == "Drizzle" && w.temperature == 10.0
    ensures IsWeatherSuitableForWalking(w)
  {
    assert Lowercase(w.condition) == "drizzle";
    MissingCharNotContained("drizzle", "rain", 'a');
    MissingCharNotContained("drizzle", "snow", 's');
  }

  /** With a clear sky, exactly the temperatures from 10 to 25 are suitable. */
  lemma ClearSkyRange(w: WeatherInfo)
    requires w.condition == "Clear"
    ensures IsWeatherSuitableForWalking(w) <==> 10.0 <= w.temperature <= 25.0
  {
    assert Lowercase(w.condition) == "clear";
    MissingCharNotContained("clear", "rain", 'i');
    MissingCharNotContained("clear", "snow", 's');
  }
}
