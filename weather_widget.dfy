/** The weather card of a trip: classifying a weather code and the record used after a failure. */
module WeatherWidget {
  import opened Common

  datatype Description = ClearSky | PartlyCloudy | Rainy | Stormy

  function DescriptionText(d: Description): string {
    match d
    case ClearSky => "Clear sky"
    case PartlyCloudy => "Partly cloudy"
    case Rainy => "Rainy"
    case Stormy => "Stormy"
  }

  /** `getWeatherDescription`: thresholds at 0, 3 and 67. */
  function GetWeatherDescription(code: int): (d: Description)
    ensures d == ClearSky <==> code == 0
    ensures d == PartlyCloudy <==> code != 0 && code <= 3
    ensures d == Rainy <==> 4 <= code <= 67
    ensures d == Stormy <==> code > 67
  {
    if code == 0 then ClearSky
    else if code <= 3 then PartlyCloudy
    else if code <= 67 then Rainy
    else Stormy
  }

  datatype Icon = Sun | Cloud | CloudRain

  /** `getWeatherIcon`: thresholds at 0 and 3. */
  function GetWeatherIcon(code: int): (i: Icon)
    ensures i == Sun <==> code == 0
    ensures i == Cloud <==> code != 0 && code <= 3
    ensures i == CloudRain <==> code > 3
  {
    if code == 0 then Sun
    else if code <= 3 then Cloud
    else CloudRain
  }

  /** The icon agrees with the description for every code: sun for clear, cloud for partly cloudy, rain otherwise. */
  lemma IconMatchesDescription(code: int)
    ensures GetWeatherIcon(code) == Sun <==> GetWeatherDescription(code) == ClearSky
    ensures GetWeatherIcon(code) == Cloud <==> GetWeatherDescription(code) == PartlyCloudy
    ensures GetWeatherIcon(code) == CloudRain <==>
      GetWeatherDescription(code) == Rainy || GetWeatherDescription(code) == Stormy
  {
  }

  /** Negative codes, which the service does not send, are still described as partly cloudy. */
  lemma NegativeCodeIsPartlyCloudy(code: int)
    requires code < 0
    ensures GetWeatherDescription(code) == PartlyCloudy && GetWeatherIcon(code) == Cloud
  {
  }

  /** The current conditions shown on the card. */
  datatype Weather = Weather(temperature: real, humidity: int, windSpeed: real, weatherCode: int)

  /** The record shown when the weather could not be fetched. */
  const FallbackWeather: Weather := Weather(22.0, 65, 15.0, 0)

  /**
   * The reply of the two requests: no place found, a forecast answer whose `current` part may be
   * missing (an error object, say), or a failure.
   */
  datatype WeatherReply = NoPlace | Answer(current: Option<Weather>) | RequestFailed

  /**
   * `fetchWeather`: the card's record afterwards, starting from `previous`. An empty record hides
   * the card (`if (!weather) return null`).
   */
  function FetchWeather(previous: Option<Weather>, reply: WeatherReply): (r: Option<Weather>)
    ensures reply.NoPlace? ==> r == previous
    ensures reply.Answer? ==> r == reply.current
    ensures reply.RequestFailed? ==> r == Some(FallbackWeather)
    ensures r.None? <==> (reply.NoPlace? && previous.None?) || reply == Answer(None)
  {
    match reply
    case NoPlace => previous
    case Answer(current) => current
    case RequestFailed => Some(FallbackWeather)
  }

  /** After a failed request the card shows clear sky with a sun. */
  lemma FailureShowsClearSky(previous: Option<Weather>)
    ensures var w := FetchWeather(previous, RequestFailed);
      w.Some? && DescriptionText(GetWeatherDescription(w.value.weatherCode)) == "Clear sky"
      && GetWeatherIcon(w.value.weatherCode) == Sun
  {
  }
}
